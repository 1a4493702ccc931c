/** Lockstep, credit conservation and in-order delivery, kept by every step and so true in every run. */
module LinkInvariant {
  import opened Common
  import opened TlxPacket
  import opened TlxEvent
  import opened Link

  lemma InitialInv(g: Grants, negedge: bool)
    ensures Inv(g, Initial(g, negedge))
  {
  }

  // ---------- packing and unpacking ----------

  /** A packet just built is alone on its wire and carries the groups packed. */
  lemma PackedOnWire(h: HostSignals, a: AfuSignals)
    ensures var p := HostPacket(HostOut(h));
      && WholeHostPacket(p) && Flag(p[0], 0x40) && HostWire([p]) == TrimHost(HostOut(h))
      && (p == [0x40] <==> HostOut(h) == NO_HOST_GROUPS)
    ensures var p := AfuPacket(AfuOut(a));
      && WholeAfuPacket(p) && Flag(p[0], 0x10) && AfuWire([p]) == TrimAfu(AfuOut(a))
      && (p == [0x10] <==> AfuOut(a) == NO_AFU_GROUPS)
  {
    hide HostPacket, AfuPacket, WholeHostPacket, WholeAfuPacket, TrimHost, TrimAfu, Flag;
    HostPacketRoundTrip(HostOut(h));
    AfuPacketRoundTrip(AfuOut(a));
  }

  lemma EmptyWires()
    ensures HostWire([]) == NO_HOST_GROUPS && AfuWire([]) == NO_AFU_GROUPS
  {
  }

  // ---------- tlx_signal_afu_model ----------

  /** The host has moved everything it had staged, credit flags included, onto the empty wire. */
  ghost predicate HostTransmitted(s: State, s': State) {
    && s' == s.(host := s'.host, toAfu := s'.toAfu)
    && HostWire(s.toAfu) == NO_HOST_GROUPS && HostWire(s'.toAfu) == TrimHost(HostOut(s.host.host))
    && s'.host == s.host.(clock := true, host := HostSent(s.host.host))
  }

  lemma SignalShape(s: State)
    requires Lockstep(s) && WiresWhole(s) && !s.host.clock
    ensures HostTransmitted(s, SignalStep(s)) && Lockstep(SignalStep(s)) && WiresWhole(SignalStep(s))
  {
    hide HostPacket, WholeHostPacket, WholeAfuPacket, HostWire, AfuWire, Flag, TrimHost, HostOut, HostSent;
    PackedOnWire(s.host.host, s.afu.afu);
    EmptyWires();
    assert s.toAfu == [] && s.toHost == [];
    assert SignalStep(s).toAfu == [HostPacket(HostOut(s.host.host))];
  }

  lemma TransmitCredits(g: Grants, s: State, s': State)
    requires HostTransmitted(s, s') && CreditsWillBeSent(g, s) && NothingOverwritten(s)
    ensures CreditsWillBeSent(g, s') && NothingOverwritten(s')
    ensures CmdCredits(s') == CmdCredits(s) && CmdDataCredits(s') == CmdDataCredits(s)
      && RespCredits(s') == RespCredits(s)
  {
    hide HostWire, AfuWire;
  }

  lemma TransmitData(s: State, s': State)
    requires HostTransmitted(s, s') && DataFitsEverywhere(s)
    ensures DataFitsEverywhere(s') && DataInFlight(s') == DataInFlight(s)
  {
  }

  lemma SignalInv(g: Grants, s: State)
    requires Inv(g, s)
    ensures Inv(g, SignalStep(s))
  {
    if !s.host.clock {
      SignalShape(s);
      TransmitCredits(g, s, SignalStep(s));
      TransmitData(s, SignalStep(s));
      hide SignalStep, CreditsWillBeSent, NothingOverwritten, DataFitsEverywhere, DataInFlight, HostTransmitted;
      hide CmdCredits, CmdDataCredits, RespCredits, Lockstep, WiresWhole;
      SignalFrame(s);
    } else {
      assert SignalStep(s) == s by { assert s.toAfu + [] == s.toAfu; }
    }
  }

  lemma SignalFrame(s: State)
    ensures SignalStep(s) == s.(host := SignalStep(s).host, toAfu := SignalStep(s).toAfu)
  {
  }

  // ---------- tlx_get_afu_events ----------

  ghost predicate HostReceived(s: State, s': State, g: AfuGroups) {
    && s' == s.(host := s'.host, toHost := s'.toHost)
    && AfuWire(s.toHost) == g && AfuWire(s'.toHost) == NO_AFU_GROUPS
    && (s'.host == HostTakes(s.host.(clock := false), g)
        || (g == NO_AFU_GROUPS && s'.host == s.host.(clock := false)))
  }

  lemma GetShape(s: State)
    requires Lockstep(s) && WiresWhole(s) && |s.toHost| > 0 && WholeAfuPacket(s.toHost[0])
    ensures HostReceived(s, GetStep(s), AfuWire(s.toHost)) && Lockstep(GetStep(s)) && WiresWhole(GetStep(s))
    ensures s.host.clock
  {
  }

  lemma ReceiveCredits(g: Grants, s: State, s': State, w: AfuGroups)
    requires HostReceived(s, s', w) && CreditsWillBeSent(g, s) && NothingOverwritten(s) && Conserved(g, s)
      && s.host.clock
    requires w.credits.Some? ==> w.credits.value.respInitial == g.hostResp
    ensures CreditsWillBeSent(g, s') && NothingOverwritten(s')
    ensures CmdCredits(s') == CmdCredits(s) && CmdDataCredits(s') == CmdDataCredits(s)
      && RespCredits(s') == RespCredits(s)
  {
    hide HostWire, AfuWire;
  }

  lemma ReceiveData(s: State, s': State, w: AfuGroups)
    requires HostReceived(s, s', w) && DataFitsEverywhere(s)
    ensures DataFitsEverywhere(s') && DataInFlight(s') == DataInFlight(s)
  {
  }

  lemma GetInv(g: Grants, s: State)
    requires Inv(g, s) && |s.toHost| > 0 && WholeAfuPacket(s.toHost[0])
    ensures Inv(g, GetStep(s))
  {
    GetShape(s);
    var w := AfuWire(s.toHost);
    var s' := GetStep(s);
    assert s'.payloads == s.payloads && s'.popped == s.popped && s'.afuReady == s.afuReady
        && s'.hostReady == s.hostReady;
    assert w.credits.Some? ==> w.credits.value.respInitial == g.hostResp by { hide AfuWire; }
    ReceiveCredits(g, s, s', w);
    ReceiveData(s, s', w);
    hide GetStep, CreditsWillBeSent, NothingOverwritten, DataFitsEverywhere, DataInFlight, HostReceived, AfuWire;
    hide CmdCredits, CmdDataCredits, RespCredits, Lockstep, WiresWhole;
  }

  // ---------- tlx_control: the AFU's clock edge ----------

  ghost predicate AfuExchanged(s: State, s': State, g: HostGroups) {
    && s' == s.(afu := s'.afu, toAfu := s'.toAfu, toHost := s'.toHost, negedge := true)
    && HostWire(s.toAfu) == g && HostWire(s'.toAfu) == NO_HOST_GROUPS
    && AfuWire(s.toHost) == NO_AFU_GROUPS && AfuWire(s'.toHost) == TrimAfu(AfuOut(s.afu.afu))
    && (s'.afu == AfuTakes(s.afu.(afu := AfuSent(s.afu.afu)), g)
        || (g == NO_HOST_GROUPS && s'.afu == s.afu.(afu := AfuSent(s.afu.afu))))
  }

  lemma AloneOnHostWire(p: seq<Byte>)
    requires WholeHostPacket(p)
    ensures HostWire([p]) == ParseHostPacket(p)
    ensures p == [0x40] ==> HostWire([p]) == NO_HOST_GROUPS
    ensures HostWire([]) == NO_HOST_GROUPS
  {
  }

  lemma ClockShape(s: State)
    requires Lockstep(s) && WiresWhole(s) && |s.toAfu| > 0 && WholeHostPacket(s.toAfu[0])
    ensures AfuExchanged(s, ClockStep(s), HostWire(s.toAfu)) && Lockstep(ClockStep(s)) && WiresWhole(ClockStep(s))
    ensures s.host.clock
  {
    hide AfuTakes, AfuSent, AfuOut, TrimAfu, ParseHostPacket, AfuPacket, WholeHostPacket, WholeAfuPacket, Flag, AfuWire;
    var p := s.toAfu[0];
    assert s.toAfu == [p] && s.toAfu[1..] == [] && s.toHost == [];
    AloneOnHostWire(p);
    PackedOnWire(s.host.host, s.afu.afu);
    EmptyWires();
    assert ClockStep(s).toHost == [AfuPacket(AfuOut(s.afu.afu))];
    assert s.afu.(clock := true, afu := AfuSent(s.afu.afu)).(clock := false) == s.afu.(afu := AfuSent(s.afu.afu));
  }

  lemma ExchangeCredits(g: Grants, s: State, s': State, w: HostGroups)
    requires AfuExchanged(s, s', w) && CreditsWillBeSent(g, s) && NothingOverwritten(s) && Conserved(g, s)
    requires s.host.clock && !s.negedge
    ensures CreditsWillBeSent(g, s') && NothingOverwritten(s')
    ensures CmdCredits(s') == CmdCredits(s) && CmdDataCredits(s') == CmdDataCredits(s)
      && RespCredits(s') == RespCredits(s)
  {
    hide HostWire, AfuWire;
  }

  lemma ExchangeData(s: State, s': State, w: HostGroups)
    requires AfuExchanged(s, s', w) && DataFitsEverywhere(s) && NothingOverwritten(s) && s.host.clock && !s.negedge
    ensures DataFitsEverywhere(s') && DataInFlight(s') == DataInFlight(s)
  {
    hide HostWire, AfuWire;
  }

  lemma ClockInv(g: Grants, s: State)
    requires Inv(g, s) && !s.negedge && |s.toAfu| > 0 && WholeHostPacket(s.toAfu[0])
    ensures Inv(g, ClockStep(s))
  {
    ClockShape(s);
    var w := HostWire(s.toAfu);
    var s' := ClockStep(s);
    assert s'.payloads == s.payloads && s'.popped == s.popped && s'.afuReady == s.afuReady
        && s'.hostReady == s.hostReady;
    ExchangeCredits(g, s, s', w);
    ExchangeData(s, s', w);
    hide ClockStep, CreditsWillBeSent, NothingOverwritten, DataFitsEverywhere, DataInFlight, AfuExchanged, HostWire,
      AfuWire;
    hide CmdCredits, CmdDataCredits, RespCredits, Lockstep, WiresWhole;
  }

  // ---------- calls made by ocse ----------

  /** A call that neither sends a response nor reads the grant: only credit flags for what was read are staged. */
  ghost predicate HostQuiet(s: State, s': State) {
    && s' == s.(host := s'.host)
    && s'.host.clock == s.host.clock
    && s'.host.avail.afuTlxResp == s.host.avail.afuTlxResp
    && s'.host.host.resp == s.host.host.resp && s'.host.host.respData == s.host.host.respData
    && (s.host.host.creditValid ==> s'.host.host.creditValid)
    && var c, c' := s.host.host.credits, s'.host.host.credits;
    && c' == c.(resp := c'.resp, respData := c'.respData, cfgAck := c'.cfgAck)
    && (c' != c ==> s'.host.host.creditValid)
    && (c'.resp == c.resp || c'.resp == 1) && (c'.respData == c.respData || c'.respData == 1)
    && (c'.cfgAck == c.cfgAck || c'.cfgAck == 1)
    && (s'.host.afu.creditReqValid ==> s.host.afu.creditReqValid && s'.host.afu.credits == s.host.afu.credits)
  }

  lemma QuietShape(s: State, c: HostCall)
    requires CallAllowed(s, c) && !c.ReadInitial? && !c.CallSendResp? && !c.CallSendRespAndData?
    ensures HostQuiet(s, HostStep(s, c))
  {
  }

  lemma QuietInv(g: Grants, s: State, s': State)
    requires Inv(g, s) && HostQuiet(s, s') && !s.host.clock
    ensures Inv(g, s')
  {
    hide HostWire, AfuWire, AfuIdle, Flag, WholeAfuPacket, WholeHostPacket;
  }

  lemma ReadInitialInv(g: Grants, s: State)
    requires Inv(g, s) && !s.hostReady && !s.host.clock
    ensures Inv(g, HostStep(s, ReadInitial))
  {
    hide HostWire, AfuWire, AfuIdle, Flag, WholeAfuPacket, WholeHostPacket;
  }

  /** A response is staged against a credit, its payload entering the stream at the young end. */
  ghost predicate Responded(s: State, s': State, r: HostResp, payload: seq<Byte>) {
    && s' == s.(host := s'.host, payloads := s.payloads + payload)
    && s.host.avail.afuTlxResp > 0 && s.host.host.resp.None?
    && s'.host == s.host.(host := s'.host.host, avail := s.host.avail.(afuTlxResp := s.host.avail.afuTlxResp - 1))
    && s'.host.host == s.host.host.(resp := Some(r), respData := s'.host.host.respData)
    && DataFits(s'.host.host)
    && DataOf(s'.host.host.resp, s'.host.host.respData) == payload
  }

  lemma RespondShape(s: State, c: HostCall)
    requires CallAllowed(s, c) && DataFits(s.host.host) && (c.CallSendResp? || c.CallSendRespAndData?)
    ensures HostStep(s, c) == s
      || (c.CallSendResp? && Responded(s, HostStep(s, c), c.r, []))
      || (c.CallSendRespAndData? && Responded(s, HostStep(s, c), c.rd, RespSlice(c.rd, c.data)))
  {
    assert s.payloads + [] == s.payloads;
  }

  lemma RespondInv(g: Grants, s: State, s': State, r: HostResp, payload: seq<Byte>)
    requires Inv(g, s) && !s.host.clock && Responded(s, s', r, payload)
    ensures Inv(g, s')
  {
    RespondData(s, s', r, payload);
    RespondCredits(g, s, s', r, payload);
    hide Lockstep, WiresWhole, NothingOverwritten, CreditsWillBeSent, Conserved, DataFitsEverywhere, Responded;
  }

  lemma RespondCredits(g: Grants, s: State, s': State, r: HostResp, payload: seq<Byte>)
    requires Inv(g, s) && !s.host.clock && Responded(s, s', r, payload)
    ensures Lockstep(s') && WiresWhole(s') && NothingOverwritten(s') && CreditsWillBeSent(g, s') && Conserved(g, s')
    ensures DataFitsEverywhere(s')
  {
    hide HostWire, AfuWire, AfuIdle, Flag, WholeAfuPacket, WholeHostPacket, DataInOrder, DataFits;
  }

  lemma RespondData(s: State, s': State, r: HostResp, payload: seq<Byte>)
    requires DataFits(s.host.host) && Responded(s, s', r, payload)
    ensures DataInFlight(s') == DataInFlight(s) + payload
    ensures DataInOrder(s) ==> DataInOrder(s')
  {
    hide HostWire, Flatten;
    assert DataInFlight(s') == DataInFlight(s) + payload;
    hide DataInFlight;
    assert (Flatten(s.popped) + DataInFlight(s)) + payload == Flatten(s.popped) + (DataInFlight(s) + payload);
  }

  lemma HostStepInv(g: Grants, s: State, c: HostCall)
    requires Inv(g, s) && !s.host.clock && CallAllowed(s, c)
    ensures Inv(g, HostStep(s, c))
  {
    hide HostStep, HostQuiet, Responded;
    if c.ReadInitial? {
      ReadInitialInv(g, s);
    } else if c.CallSendResp? || c.CallSendRespAndData? {
      RespondShape(s, c);
      if c.CallSendResp? && HostStep(s, c) != s {
        RespondInv(g, s, HostStep(s, c), c.r, []);
      } else if HostStep(s, c) != s {
        RespondInv(g, s, HostStep(s, c), c.rd, RespSlice(c.rd, c.data));
      }
    } else {
      QuietShape(s, c);
      QuietInv(g, s, HostStep(s, c));
    }
  }

  // ---------- tlx_bfm: the driving edge ----------

  /** The invariant inside a driving edge, when the AFU side may already have something staged. */
  ghost predicate DriveInv(g: Grants, s: State) {
    && Lockstep(s) && WiresWhole(s) && (s.host.clock ==> HostIdle(s.host.host))
    && CreditsWillBeSent(g, s) && Conserved(g, s) && DataFitsEverywhere(s) && DataInOrder(s)
  }

  /** Staged by the AFU so far: what AfuIdle says about the signals, minus the credit request. */
  predicate NoCmdStaged(a: AfuSignals) { a.cmd.None? && a.cmdData.None? }

  lemma DriveCreditsInv(g: Grants, s: State, p: Pins)
    requires DriveInv(g, s) && AfuIdle(s.afu.afu)
    requires p.respCredit ==> s.owed > 0
    requires p.reset ==> !p.cfgCredit && !p.respCredit && !p.cmdCredit
    ensures DriveInv(g, DriveCredits(g, s, p)) && NoCmdStaged(DriveCredits(g, s, p).afu.afu)
  {
    hide HostWire, AfuWire, HostIdle, Flag, WholeAfuPacket, WholeHostPacket;
    var s' := DriveCredits(g, s, p);
    assert DataInFlight(s') == DataInFlight(s) && DataFitsEverywhere(s') by { SameData(s, s'); }
    hide DataInFlight, DataFitsEverywhere;
  }

  /** Steps that change neither the host, the wires nor received groups leave the data stream alone. */
  lemma SameData(s: State, s': State)
    requires s' == s.(afu := s'.afu, afuGranted := s'.afuGranted, afuReady := s'.afuReady, owed := s'.owed)
    requires s'.afu.host.resp == s.afu.host.resp && s'.afu.host.respData == s.afu.host.respData
    ensures DataInFlight(s') == DataInFlight(s)
    ensures DataFitsEverywhere(s) ==> DataFitsEverywhere(s')
  {
  }

  lemma DriveCmdInv(g: Grants, s: State, p: Pins)
    requires DriveInv(g, s) && s.afu.afu.cmdData.None?
    ensures DriveInv(g, DriveCmd(s, p)) && DriveCmd(s, p).afu.afu.cmdData.None?
  {
    hide HostWire, AfuWire, HostIdle, Flag, WholeAfuPacket, WholeHostPacket;
    var s' := DriveCmd(s, p);
    assert DataInFlight(s') == DataInFlight(s) && DataFitsEverywhere(s') by { SameData(s, s'); }
    hide DataInFlight, DataFitsEverywhere;
  }

  /** Nothing guards a command data beat already staged; it is never there, because each clock edge empties it. */
  lemma DriveCmdDataInv(g: Grants, s: State, p: Pins)
    requires DriveInv(g, s) && s.afu.afu.cmdData.None?
    ensures DriveInv(g, DriveCmdData(s, p))
  {
    hide HostWire, AfuWire, HostIdle, Flag, WholeAfuPacket, WholeHostPacket;
    var s' := DriveCmdData(s, p);
    assert DataInFlight(s') == DataInFlight(s) && DataFitsEverywhere(s') by { SameData(s, s'); }
    hide DataInFlight, DataFitsEverywhere;
  }

  lemma DriveRespShape(s: State, p: Pins)
    ensures DriveResp(s, p) == s.(afu := DriveResp(s, p).afu) && RespPathOnly(s.afu, DriveResp(s, p).afu)
  {
    hide AfuSendResp, AfuSendRespData, AfuSendRespAndData, AfuSendCfgResp;
  }

  lemma DriveRespInv(g: Grants, s: State, p: Pins)
    requires DriveInv(g, s)
    ensures DriveInv(g, DriveResp(s, p))
  {
    var s' := DriveResp(s, p);
    DriveRespShape(s, p);
    hide DriveResp;
    hide HostWire, AfuWire, HostIdle, Flag, WholeAfuPacket, WholeHostPacket;
    assert DataInFlight(s') == DataInFlight(s) && DataFitsEverywhere(s') by { SameData(s, s'); }
    hide DataInFlight, DataFitsEverywhere;
  }

  lemma DriveInInv(g: Grants, s: State, p: Pins)
    requires DriveInv(g, s) && AfuIdle(s.afu.afu)
    requires p.respCredit ==> s.owed > 0
    requires p.reset ==> !p.cfgCredit && !p.respCredit && !p.cmdCredit
    ensures DriveInv(g, DriveIn(g, s, p))
  {
    DriveCreditsInv(g, s, p);
    hide DriveCredits, DriveCmd, DriveCmdData, DriveResp, DriveInv, AfuIdle;
    var s1 := DriveCredits(g, s, p);
    DriveCmdInv(g, s1, p);
    var s2 := DriveCmd(s1, p);
    DriveCmdDataInv(g, s2, p);
    DriveRespInv(g, DriveCmdData(s2, p), p);
  }

  lemma {:induction false} LinesFlatten(bytes: seq<Byte>, n: nat)
    requires n * 64 <= |bytes|
    ensures Flatten(Lines(bytes, n)) == bytes[..n * 64]
  {
    if n > 0 {
      LinesFlatten(bytes, n - 1);
      var last := bytes[(n - 1) * 64 .. n * 64];
      FlattenAppend(Lines(bytes, n - 1), [last]);
      FlattenSingle(last);
      assert bytes[..(n - 1) * 64] + last == bytes[..n * 64];
    }
  }

  /** The response received, if any, now belongs to the AFU and its bytes are in the FIFO. */
  ghost predicate Caught(s: State, s': State) {
    var h := s.afu.host;
    && s' == s.(afu := s'.afu, owed := s.owed + Count(h.resp.Some?), fifo := s'.fifo)
    && s'.afu == s.afu.(host := h.(resp := None, respData := None))
    && |s.fifo| <= |s'.fifo| && Flatten(s'.fifo) == Flatten(s.fifo) + DataOf(h.resp, h.respData)
  }

  /** Cutting a response's data into lines keeps every byte, in order. */
  lemma CatchShape(s: State)
    requires DataFits(s.afu.host)
    ensures Caught(s, CatchResp(s))
  {
    var h := s.afu.host;
    if h.resp.Some? && h.respData.Some? {
      var b, n := h.respData.value.bytes, DecodeDl(h.resp.value.dl);
      hide Flatten, Lines;
      WholeLines(b, n);
      FlattenLines(s.fifo, Lines(b, n));
    } else {
      hide Flatten, Lines;
      assert s.fifo + [] == s.fifo;
    }
  }

  lemma WholeLines(b: seq<Byte>, n: nat)
    requires |b| == n * 64
    ensures Flatten(Lines(b, n)) == b
  {
    LinesFlatten(b, n);
    assert b[..n * 64] == b;
  }

  lemma FlattenLines(a: seq<Line>, b: seq<Line>)
    ensures Flatten(a + b) == Flatten(a) + Flatten(b)
  {
    FlattenAppend(a, b);
  }

  lemma CatchInv(g: Grants, s: State, s': State)
    requires DriveInv(g, s) && Caught(s, s')
    ensures DriveInv(g, s')
  {
    CatchData(s, s');
    hide HostWire, AfuWire, HostIdle, Flag, WholeAfuPacket, WholeHostPacket, DataInFlight, Flatten;
  }

  lemma CatchData(s: State, s': State)
    requires Caught(s, s')
    ensures DataInFlight(s') == DataInFlight(s)
  {
  }

  /** One line at most moves from the FIFO to the AFU; what else was received is driven and its flags cleared. */
  ghost predicate DrivenOut(s: State, s': State) {
    && s' == s.(afu := s'.afu, rdCnt := s'.rdCnt, fifo := s'.fifo, popped := s'.popped)
    && s'.afu == s.afu.(host := s'.afu.host)
    && s'.afu.host.resp == s.afu.host.resp && s'.afu.host.respData == s.afu.host.respData
    && s'.afu.host.creditValid == s.afu.host.creditValid
    && (forall g: Grants :: HostGrantIn(g, s.afu.host.credits) ==> HostGrantIn(g, s'.afu.host.credits))
    && s'.rdCnt <= |s'.fifo|
    && Flatten(s'.popped) + Flatten(s'.fifo) == Flatten(s.popped) + Flatten(s.fifo)
  }

  lemma OutShape(s: State)
    requires s.rdCnt <= |s.fifo|
    ensures DrivenOut(s, DriveOut(s))
  {
    if s.rdCnt > 0 {
      FlattenLines(s.popped, [s.fifo[0]]);
      FlattenSingle(s.fifo[0]);
      assert (Flatten(s.popped) + s.fifo[0]) + Flatten(s.fifo[1..])
        == Flatten(s.popped) + (s.fifo[0] + Flatten(s.fifo[1..]));
    }
  }

  lemma OutInv(g: Grants, s: State, s': State)
    requires DriveInv(g, s) && DrivenOut(s, s')
    ensures DriveInv(g, s')
  {
    OutData(s, s');
    hide HostWire, AfuWire, HostIdle, Flag, WholeAfuPacket, WholeHostPacket, DataInFlight, Flatten;
  }

  lemma OutData(s: State, s': State)
    requires DrivenOut(s, s')
    ensures Flatten(s'.popped) + DataInFlight(s') == Flatten(s.popped) + DataInFlight(s)
  {
    hide HostWire, AfuWire, Flatten, DataOf;
    var rest := DataOf(s.afu.host.resp, s.afu.host.respData)
      + (DataOf(HostWire(s.toAfu).resp, HostWire(s.toAfu).respData) + DataOf(s.host.host.resp, s.host.host.respData));
    assert Flatten(s.popped) + (Flatten(s.fifo) + rest) == (Flatten(s.popped) + Flatten(s.fifo)) + rest;
    assert Flatten(s'.popped) + (Flatten(s'.fifo) + rest) == (Flatten(s'.popped) + Flatten(s'.fifo)) + rest;
  }

  lemma SetRdCnt(g: Grants, s: State, n: nat)
    requires DriveInv(g, s) && n <= |s.fifo|
    ensures DriveInv(g, s.(rdCnt := n))
  {
    hide HostWire, AfuWire, HostIdle, Flag, WholeAfuPacket, WholeHostPacket;
  }

  lemma BeginDrive(g: Grants, s: State, p: Pins)
    requires Inv(g, s) && s.negedge && AfuBehaves(s, p)
    ensures DriveInv(g, s) && AfuIdle(s.afu.afu)
    ensures p.respCredit ==> s.owed > 0
    ensures p.reset ==> !p.cfgCredit && !p.respCredit && !p.cmdCredit
  {
  }

  lemma DriveStepInv(g: Grants, s: State, p: Pins)
    requires Inv(g, s) && s.negedge && AfuBehaves(s, p)
    ensures Inv(g, DriveStep(g, s, p))
  {
    BeginDrive(g, s, p);
    RequestedLines(g, s, p);
    hide *;
    DriveInInv(g, s, p);
    FinishDrive(g, DriveIn(g, s, p), Requested(p));
    DriveStepIs(g, s, p);
  }

  lemma DriveStepIs(g: Grants, s: State, p: Pins)
    requires AfuBehaves(s, p) && DataFits(DriveIn(g, s, p).afu.host)
    requires DriveIn(g, s, p).rdCnt + Requested(p) <= |CatchResp(DriveIn(g, s, p)).fifo|
    ensures DriveStep(g, s, p) == DriveEnd(DriveIn(g, s, p), Requested(p))
  {
  }

  /** What the second half of a driving edge leaves alone. */
  predicate Left(s: State, t: State) {
    && t.host == s.host && t.toAfu == s.toAfu && t.toHost == s.toHost && t.afu.afu == s.afu.afu
  }

  lemma EndLeaves(d: State, n: nat)
    requires DataFits(d.afu.host) && d.rdCnt + n <= |CatchResp(d).fifo|
    ensures Left(d, DriveEnd(d, n)) && !DriveEnd(d, n).negedge
  {
    hide DataFits, CatchResp, DriveOut;
    CatchRdCnt(d, d.rdCnt + n);
    CatchLeaves(d);
    OutLeaves(CatchResp(d).(rdCnt := d.rdCnt + n));
  }

  lemma OutLeaves(c: State)
    requires c.rdCnt <= |c.fifo|
    ensures Left(c, DriveOut(c))
  {
  }

  lemma CatchLeaves(d: State)
    requires DataFits(d.afu.host)
    ensures Left(d, CatchResp(d))
  {
    hide Lines;
  }

  /** The AFU's counters a driving edge works with: ocse's grant on the edge that reads it. */
  function Counters(g: Grants, s: State, p: Pins): Avail {
    if !p.reset && !s.afuReady && s.afu.host.creditValid then
      s.afu.avail.(tlxAfuCmd := g.cmd, tlxAfuResp := g.resp, tlxAfuCmdData := g.cmdData, tlxAfuRespData := g.respData)
    else s.afu.avail
  }

  /** What the AFU presents is staged, each signal as it is presented, if and only if its credits are there; a response
      and its data go together or not at all, and a configuration response only when no other comes. */
  predicate Staged(g: Grants, s: State, p: Pins, a: AfuSignals) {
    var c := Counters(g, s, p);
    && a.cmd == (if c.tlxAfuCmd > 0 then p.cmd else None)
    && a.cmdData == (if c.tlxAfuCmdData > 0 then p.cmdData else None)
    && a.resp == (if c.tlxAfuResp > 0 && (p.respData.Some? ==> c.tlxAfuRespData > 0) then p.resp else None)
    && a.respData == (if c.tlxAfuRespData > 0 && (p.resp.Some? ==> c.tlxAfuResp > 0) then p.respData else None)
    && (a.cfgResp.Some? <==> p.cfgResp.Some? && p.resp.None? && p.respData.None?)
    && (a.cfgResp.Some? ==>
          a.cfgResp.value == p.cfgResp.value.(bus := a.cfgResp.value.bus)
          && (p.cfgResp.value.opcode == 0x01 ==> a.cfgResp == p.cfgResp))
  }

  lemma CreditsStageNothing(g: Grants, s: State, p: Pins)
    requires p.respCredit ==> s.owed > 0
    requires s.afu.host.creditValid ==> HostGrantIn(g, s.afu.host.credits)
    ensures var d := DriveCredits(g, s, p).afu;
      && d.avail == Counters(g, s, p)
      && d.afu == s.afu.afu.(creditReqValid := d.afu.creditReqValid, credits := d.afu.credits)
  {
  }

  lemma CmdStaged(s: State, p: Pins)
    requires s.afu.afu.cmd.None?
    ensures var d := DriveCmd(s, p).afu;
      && d.afu == s.afu.afu.(cmd := if s.afu.avail.tlxAfuCmd > 0 then p.cmd else None)
      && d.avail == s.afu.avail.(tlxAfuCmd := d.avail.tlxAfuCmd)
  {
  }

  lemma CmdDataStaged(s: State, p: Pins)
    requires s.afu.afu.cmdData.None?
    ensures var d := DriveCmdData(s, p).afu;
      && d.afu == s.afu.afu.(cmdData := if s.afu.avail.tlxAfuCmdData > 0 then p.cmdData else None)
      && d.avail == s.afu.avail.(tlxAfuCmdData := d.avail.tlxAfuCmdData)
  {
  }

  lemma RespStaged(s: State, p: Pins)
    requires s.afu.afu.resp.None? && s.afu.afu.respData.None? && (p.resp.Some? || p.respData.Some?)
    ensures var c, a := s.afu.avail, DriveResp(s, p).afu.afu;
      && a == s.afu.afu.(resp := a.resp, respData := a.respData)
      && a.resp == (if c.tlxAfuResp > 0 && (p.respData.Some? ==> c.tlxAfuRespData > 0) then p.resp else None)
      && a.respData == (if c.tlxAfuRespData > 0 && (p.resp.Some? ==> c.tlxAfuResp > 0) then p.respData else None)
  {
    hide AfuSendCfgResp;
  }

  lemma CfgRespStaged(s: State, p: Pins)
    requires s.afu.afu.cfgResp.None? && p.resp.None? && p.respData.None?
    ensures var a := DriveResp(s, p).afu.afu;
      && a == s.afu.afu.(cfgResp := a.cfgResp)
      && (a.cfgResp.Some? <==> p.cfgResp.Some?)
      && (a.cfgResp.Some? ==>
            a.cfgResp.value == p.cfgResp.value.(bus := a.cfgResp.value.bus)
            && (p.cfgResp.value.opcode == 0x01 ==> a.cfgResp == p.cfgResp))
  {
    hide AfuSendResp, AfuSendRespData, AfuSendRespAndData;
  }

  lemma DriveInStages(g: Grants, s: State, p: Pins)
    requires AfuOut(s.afu.afu) == NO_AFU_GROUPS && (p.respCredit ==> s.owed > 0)
    requires s.afu.host.creditValid ==> HostGrantIn(g, s.afu.host.credits)
    ensures Staged(g, s, p, DriveIn(g, s, p).afu.afu)
  {
    hide HostGrantIn;
    CreditsStageNothing(g, s, p);
    var s1 := DriveCredits(g, s, p);
    CmdStaged(s1, p);
    var s2 := DriveCmd(s1, p);
    CmdDataStaged(s2, p);
    if p.resp.Some? || p.respData.Some? {
      RespStaged(DriveCmdData(s2, p), p);
    } else {
      CfgRespStaged(DriveCmdData(s2, p), p);
    }
    assert DriveIn(g, s, p) == DriveResp(DriveCmdData(s2, p), p);
    hide DriveIn, DriveCredits, DriveCmd, DriveCmdData, DriveResp, Counters;
  }

  /** In every run a driving edge stages exactly what the AFU presents and has the credits for. */
  lemma DriveStages(g: Grants, negedge: bool, states: seq<State>, acts: seq<Action>, n: nat)
    requires Run(g, negedge, states, acts) && n < |acts| && acts[n].AfuDrive?
    ensures Staged(g, states[n], acts[n].pins, states[n + 1].afu.afu)
  {
    var s, p := states[n], acts[n].pins;
    RunInv(g, negedge, states, acts, n);
    assert Enabled(g, s, acts[n]) && states[n + 1] == Step(g, s, acts[n]);
    BeginDrive(g, s, p);
    assert s.afu.host.creditValid ==> HostGrantIn(g, s.afu.host.credits);
    hide Inv, DriveInv, Run, Staged, DriveStep, DriveIn, DriveEnd, CatchResp, Requested, DataFits, HostGrantIn, AfuOut;
    RequestedLines(g, s, p);
    DriveStepIs(g, s, p);
    DriveInStages(g, s, p);
    EndLeaves(DriveIn(g, s, p), Requested(p));
  }

  /** Of what was received only data without its command is left for a later edge. */
  predicate Taken(h: HostSignals, t: HostSignals) {
    && t.cfg.None? && t.cmd.None? && t.resp.None? && t.respData.None?
    && t.cmdData == (if h.cmd.Some? then None else h.cmdData)
    && t.creditValid == h.creditValid
  }

  lemma CatchTakes(d: State)
    requires DataFits(d.afu.host)
    ensures var h, t := d.afu.host, CatchResp(d).afu.host;
      && t.cmd == h.cmd && t.cmdData == h.cmdData && t.resp.None? && t.respData.None?
      && t.creditValid == h.creditValid
  {
    hide Lines;
  }

  lemma OutTakes(c: State)
    requires c.rdCnt <= |c.fifo| && c.afu.host.resp.None? && c.afu.host.respData.None?
    ensures Taken(c.afu.host, DriveOut(c).afu.host)
  {
  }

  lemma EndTakes(d: State, n: nat)
    requires DataFits(d.afu.host) && d.rdCnt + n <= |CatchResp(d).fifo|
    ensures Taken(d.afu.host, DriveEnd(d, n).afu.host)
  {
    hide DataFits, CatchResp, DriveOut;
    CatchRdCnt(d, d.rdCnt + n);
    CatchTakes(d);
    OutTakes(CatchResp(d).(rdCnt := d.rdCnt + n));
  }

  /** A received grant is read once, on the first edge out of reset. */
  lemma GrantRead(g: Grants, s: State, p: Pins)
    requires p.respCredit ==> s.owed > 0
    ensures DriveIn(g, s, p).afu.host.creditValid == (s.afu.host.creditValid && (p.reset || s.afuReady))
  {
    hide DriveCredits, DriveCmd, DriveCmdData, DriveResp;
    var s1 := DriveCredits(g, s, p);
    CreditRead(g, s, p);
    CmdSameGrant(s1, p);
    CmdSameGrant(DriveCmd(s1, p), p);
    RespSameGrant(DriveCmdData(DriveCmd(s1, p), p), p);
  }

  lemma CreditRead(g: Grants, s: State, p: Pins)
    requires p.respCredit ==> s.owed > 0
    ensures DriveCredits(g, s, p).afu.host.creditValid == (s.afu.host.creditValid && (p.reset || s.afuReady))
  {
  }

  lemma CmdSameGrant(s: State, p: Pins)
    ensures DriveCmd(s, p).afu.host == DriveCmdData(s, p).afu.host == s.afu.host
  {
    hide AfuSendCmd, AfuSendCmdData;
  }

  lemma RespSameGrant(s: State, p: Pins)
    ensures DriveResp(s, p).afu.host == s.afu.host
  {
    hide AfuSendResp, AfuSendRespData, AfuSendRespAndData, AfuSendCfgResp;
  }

  /** In every run a driving edge takes every command, configuration command and response received, and on the first one
      out of reset the grant. */
  lemma DriveTakes(g: Grants, negedge: bool, states: seq<State>, acts: seq<Action>, n: nat)
    requires Run(g, negedge, states, acts) && n < |acts| && acts[n].AfuDrive?
    ensures var h, unread := states[n].afu.host, acts[n].pins.reset || states[n].afuReady;
      Taken(h.(creditValid := h.creditValid && unread), states[n + 1].afu.host)
  {
    var s, p := states[n], acts[n].pins;
    assert Enabled(g, s, acts[n]) && states[n + 1] == Step(g, s, acts[n]) && AfuBehaves(s, p);
    RequestedLines(g, s, p);
    DriveInInputsOnly(g, s, p);
    GrantRead(g, s, p);
    hide Run, DriveStep, DriveIn, DriveEnd, CatchResp, Requested, DataFits;
    DriveStepIs(g, s, p);
    EndTakes(DriveIn(g, s, p), Requested(p));
  }

  /** What ocse hands to a call is staged as it is, if its credit is there and nothing of its kind is staged; what was
      staged stays as it was. */
  predicate HostStaged(a: Avail, h: HostSignals, c: HostCall, t: HostSignals) {
    match c
    case CallSendResp(r) =>
      t == h.(resp := if a.afuTlxResp > 0 && h.resp.None? then Some(r) else h.resp)
    case CallSendRespAndData(r, bdi, data) =>
      var at := r.dp % 4 * 64;
      if a.afuTlxResp > 0 && h.resp.None? then
        && t == h.(resp := Some(r), respData := t.respData) && t.respData.Some? && t.respData.value.bdi == bdi
        && |t.respData.value.bytes| == DlToSize(r.dl)
        && forall k :: 0 <= k < DlToSize(r.dl) && at + k < |data| ==> t.respData.value.bytes[k] == data[at + k]
      else t == h
    case CallSendCmd(m, d) =>
      t == (if h.cmd.Some? then h else h.(cmd := Some(m), cmdData := if d.Some? then d else h.cmdData))
    case CallSendCfg(m, held) =>
      if a.cfgTlx > 0 && h.cfg.None? && m.opcode in {0xe0, 0xe1} then
        && t == h.(cfg := t.cfg) && t.cfg.Some?
        && t.cfg.value == m.(bdi := t.cfg.value.bdi, bus := t.cfg.value.bus)
        && (m.opcode == 0xe1 && m.pl == 2 ==> t.cfg.value.bus == m.bus)
      else t == h
    case _ => HostOut(t.(creditValid := false)) == HostOut(h.(creditValid := false))
  }

  lemma CallStages(s: State, c: HostCall)
    requires CallAllowed(s, c) && (s.host.host.respData.Some? ==> s.host.host.resp.Some?)
    ensures HostStaged(s.host.avail, s.host.host, c, HostStep(s, c).host.host)
  {
    match c
    case CallSendRespAndData(r, bdi, data) => DataStaged(s.host, r, bdi, data);
    case CallSendCfg(m, held) => CfgCmdStaged(s.host, m, held);
    case _ => hide SendRespAndData, SendCfg;
  }

  lemma DataStaged(e: Event, r: HostResp, bdi: Byte, data: seq<Byte>)
    requires 1 <= r.dl <= 3 && r.dp % 4 * 64 + DlToSize(r.dl) <= |data|
    requires e.host.respData.Some? ==> e.host.resp.Some?
    ensures HostStaged(e.avail, e.host, CallSendRespAndData(r, bdi, data), SendRespAndData(e, r, bdi, data).1.host)
  {
  }

  lemma CfgCmdStaged(e: Event, m: CfgCmd, held: CfgBus)
    ensures HostStaged(e.avail, e.host, CallSendCfg(m, held), SendCfg(e, m, held).1.host)
  {
  }

  /** In every run. */
  lemma HostStages(g: Grants, negedge: bool, states: seq<State>, acts: seq<Action>, n: nat)
    requires Run(g, negedge, states, acts) && n < |acts| && acts[n].Host?
    ensures HostStaged(states[n].host.avail, states[n].host.host, acts[n].call, states[n + 1].host.host)
  {
    RunInv(g, negedge, states, acts, n);
    assert Enabled(g, states[n], acts[n]) && states[n + 1] == Step(g, states[n], acts[n]);
    assert DataFits(states[n].host.host);
    hide Inv, Run, HostStaged, HostStep;
    CallStages(states[n], acts[n].call);
  }

  lemma FinishDrive(g: Grants, d: State, n: nat)
    requires DriveInv(g, d) && DataFits(d.afu.host) && d.rdCnt + n <= |CatchResp(d).fifo|
    ensures Inv(g, DriveEnd(d, n))
  {
    hide DriveInv, Inv, DataFits;
    var c := CatchResp(d);
    var c' := c.(rdCnt := d.rdCnt + n);
    CatchRdCnt(d, d.rdCnt + n);
    CatchShape(d);
    hide CatchResp, DriveOut;
    CatchInv(g, d, c);
    SetRdCnt(g, c, d.rdCnt + n);
    OutShape(c');
    OutInv(g, c', DriveOut(c'));
    EndDrive(g, DriveOut(c'));
  }

  lemma CatchRdCnt(d: State, n: nat)
    requires DataFits(d.afu.host)
    ensures CatchResp(d.(rdCnt := n)) == CatchResp(d).(rdCnt := n)
  {
  }

  lemma EndDrive(g: Grants, s: State)
    requires DriveInv(g, s) && s.afu.host.resp.None? && s.afu.host.respData.None?
    ensures Inv(g, s.(negedge := false))
  {
    hide HostWire, AfuWire, HostIdle, Flag, WholeAfuPacket, WholeHostPacket;
  }

  // ---------- every run ----------

  lemma StepInv(g: Grants, s: State, a: Action)
    requires Inv(g, s) && Enabled(g, s, a)
    ensures Inv(g, Step(g, s, a))
  {
    hide Inv;
    match a
    case HostSignal => SignalInv(g, s);
    case HostGet => GetInv(g, s);
    case Host(c) => HostStepInv(g, s, c);
    case AfuDrive(p) => DriveStepInv(g, s, p);
    case AfuClock => ClockInv(g, s);
  }

  lemma {:induction false} RunInv(g: Grants, negedge: bool, states: seq<State>, acts: seq<Action>, n: nat)
    requires Run(g, negedge, states, acts) && n < |states|
    ensures Inv(g, states[n])
  {
    if n == 0 {
      InitialInv(g, negedge);
    } else {
      RunInv(g, negedge, states, acts, n - 1);
      StepInv(g, states[n - 1], acts[n - 1]);
    }
  }

  /** In every state of every run there is one clock token, so each direction carries at most one packet; while the
      host waits it has nothing staged that a packet could overwrite; the AFU starts a driving edge with nothing
      staged, and has taken every response by the time the next packet can reach it. */
  lemma ClockLockstep(g: Grants, negedge: bool, states: seq<State>, acts: seq<Action>, n: nat)
    requires Run(g, negedge, states, acts) && n < |states|
    ensures var s := states[n];
      && Count(!s.host.clock) + |s.toAfu| + |s.toHost| == 1
      && (s.host.clock ==> HostOut(s.host.host) == NO_HOST_GROUPS)
      && (s.negedge ==> AfuOut(s.afu.afu) == NO_AFU_GROUPS)
      && (!s.negedge ==> s.afu.host.resp.None? && s.afu.host.respData.None?)
  {
    RunInv(g, negedge, states, acts, n);
    hide Run, WiresWhole, CreditsWillBeSent, Conserved, DataFitsEverywhere, DataInOrder;
  }

  /** The three credit pools hold their grant from the moment it is read, so no counter passes its grant
      (a uint8_t never wraps) and no more is outstanding than was granted. */
  lemma CreditConservation(g: Grants, negedge: bool, states: seq<State>, acts: seq<Action>, n: nat)
    requires Run(g, negedge, states, acts) && n < |states|
    ensures var s := states[n];
      && (s.afuReady ==> CmdCredits(s) == g.cmd && CmdDataCredits(s) == g.cmdData)
      && (s.hostReady ==> RespCredits(s) == g.hostResp)
      && s.afu.avail.tlxAfuCmd <= g.cmd && s.afu.avail.tlxAfuCmdData <= g.cmdData
      && s.host.avail.afuTlxResp <= g.hostResp && s.owed <= g.hostResp
  {
    RunInv(g, negedge, states, acts, n);
    hide HostWire, AfuWire, Run, Lockstep, WiresWhole, NothingOverwritten, CreditsWillBeSent, DataFitsEverywhere,
      DataInOrder;
  }

  /** What the AFU has been given is always a prefix of the payloads sent, and the rest is in flight. */
  lemma ReadDataInOrder(g: Grants, negedge: bool, states: seq<State>, acts: seq<Action>, n: nat)
    requires Run(g, negedge, states, acts) && n < |states|
    ensures var s := states[n];
      && Flatten(s.popped) <= s.payloads
      && s.payloads[|Flatten(s.popped)|..] == DataInFlight(s)
  {
    RunInv(g, negedge, states, acts, n);
    hide Run, Lockstep, WiresWhole, NothingOverwritten, CreditsWillBeSent, Conserved, DataFitsEverywhere, DataInFlight;
  }

  /** One transmission and the clock edge that receives it hand the AFU exactly what the host had staged,
      cut to the declared widths, and nothing of it is left behind. */
  lemma HostGroupsDelivered(g: Grants, s: State)
    requires Inv(g, s) && !s.host.clock && !s.negedge && HostOut(s.host.host) != NO_HOST_GROUPS
    ensures Enabled(g, SignalStep(s), AfuClock)
    ensures HostOut(ClockStep(SignalStep(s)).afu.host) == TrimHost(HostOut(s.host.host))
    ensures HostOut(ClockStep(SignalStep(s)).host.host) == NO_HOST_GROUPS
  {
    var h := HostOut(s.host.host);
    var p := HostPacket(h);
    var s1 := SignalStep(s);
    SignalShape(s);
    HostPacketRoundTrip(h);
    assert s1.toAfu == [p] && s1.afu == s.afu;
    ParsedByAfu(s1.afu, p);
    assert ClockStep(s1).host == s1.host;
  }

  lemma ParsedByAfu(e: Event, p: seq<Byte>)
    requires WholeHostPacket(p) && p != [0x40]
    ensures HostOut(GetTlxEvents(e, p).0.host) == ParseHostPacket(p)
  {
  }

  /** The other direction: a clock edge and the host's next receive hand ocse every group the AFU had staged. */
  lemma AfuGroupsDelivered(g: Grants, s: State)
    requires Inv(g, s) && Enabled(g, s, AfuClock) && AfuOut(s.afu.afu) != NO_AFU_GROUPS
    ensures Enabled(g, ClockStep(s), HostGet)
    ensures var sent, a := TrimAfu(AfuOut(s.afu.afu)), GetStep(ClockStep(s)).host.afu;
      AfuOut(a).(credits := sent.credits) == sent && (a.creditReqValid <==> sent.credits.Some?)
    ensures AfuOut(ClockStep(s).afu.afu) == NO_AFU_GROUPS
  {
    ClockShape(s);
    var out := AfuOut(s.afu.afu);
    var p := AfuPacket(out);
    AfuPacketRoundTrip(out);
    SentByAfu(s.afu, s.toAfu[0]);
    assert ClockStep(s).toHost == [p] by { assert s.toHost == []; }
    ParsedByHost(s.host, p);
  }

  lemma SentByAfu(e: Event, p: seq<Byte>)
    requires WholeHostPacket(p) && Flag(p[0], 0x40)
    ensures GetTlxEvents(e, p).1 == [AfuPacket(AfuOut(e.afu))]
    ensures AfuOut(GetTlxEvents(e, p).0.afu) == NO_AFU_GROUPS
  {
  }

  lemma ParsedByHost(e: Event, p: seq<Byte>)
    requires WholeAfuPacket(p) && p != [0x10]
    ensures var sent, a := ParseAfuPacket(p), GetAfuEvents(e, p).afu;
      AfuOut(a).(credits := sent.credits) == sent && (a.creditReqValid <==> sent.credits.Some?)
  {
  }
}
