/** The two clock edges of tlx_bfm in afu_driver/src/afu_driver.c as the object whose static event and FIFO they
    update, proved against the driving edge and the clock edge of the link model. */
module Driver {
  import opened Common
  import opened TlxPacket
  import E = TlxEvent
  import TlxInterface
  import Link
  import RdataFifo

  /** The received signals once a driving edge has passed them to the AFU. */
  function Driven(h: E.HostSignals): E.HostSignals {
    h.(cfg := None, cmd := None, cmdData := if h.cmd.Some? then None else h.cmdData,
       resp := None, respData := if h.resp.Some? then None else h.respData,
       credits := h.credits.(resp := 0, respData := 0, cmd := 0, cmdData := 0, cfgAck := 0))
  }

  /** A received response is taken off the signals together with its data. */
  function Caught(h: E.HostSignals): (r: E.HostSignals)
    ensures r.resp.None? && Driven(r) == Driven(h)
  {
    h.(resp := None, respData := if h.resp.Some? then None else h.respData)
  }

  predicate SameFlags(s: Link.State, t: Link.State) {
    t.afuGranted == s.afuGranted && t.afuReady == s.afuReady
  }

  lemma CatchAfu(d: Link.State)
    requires Link.DataFits(d.afu.host)
    ensures var c := Link.CatchResp(d);
      c.afu == d.afu.(host := Caught(d.afu.host)) && c.rdCnt == d.rdCnt && SameFlags(d, c)
  {
    hide Link.Lines, Driven;
  }

  lemma DriveOutAfu(c: Link.State)
    requires c.rdCnt <= |c.fifo| && c.afu.host.resp.None?
    ensures var e := Link.DriveOut(c);
      e.afu == c.afu.(host := Driven(c.afu.host)) && SameFlags(c, e)
  {
  }

  /** What the second half of a driving edge does to the driver's event and flags. */
  lemma DriveEndAfu(d: Link.State, n: nat)
    requires Link.DataFits(d.afu.host) && d.rdCnt + n <= |Link.CatchResp(d).fifo|
    ensures var e := Link.DriveEnd(d, n);
      e.afu == d.afu.(host := Driven(d.afu.host)) && SameFlags(d, e)
  {
    hide Driven, Caught, RdataFifo.Arriving, Link.CatchResp, Link.DriveOut;
    var r := d.(rdCnt := d.rdCnt + n);
    CatchAfu(r);
    RdataFifo.LinkCatches(d);
    RdataFifo.LinkCatches(r);
    DriveOutAfu(Link.CatchResp(r));
  }

  /** A driving edge as its inputs, a tick of the FIFO and its outputs. */
  lemma DriveStepParts(g: Link.Grants, s: Link.State, p: Link.Pins)
    requires Link.AfuBehaves(s, p)
    ensures var d, e := Link.DriveIn(g, s, p), Link.DriveStep(g, s, p);
      && d.fifo == s.fifo && d.rdCnt == s.rdCnt && d.popped == s.popped
      && Link.DataFits(d.afu.host)
      && e.afu == d.afu.(host := Driven(d.afu.host)) && SameFlags(d, e)
      && var arriving := RdataFifo.Arriving(d.afu.host.resp, d.afu.host.respData);
      var fifo, due := s.fifo + arriving, s.rdCnt + Link.Requested(p);
      && due <= |fifo|
      && e.fifo == (if due > 0 then fifo[1..] else fifo)
      && e.popped == s.popped + (if due > 0 then [fifo[0]] else [])
      && e.rdCnt == (if due > 0 then due - 1 else 0)
  {
    Link.RequestedLines(g, s, p);
    Link.DriveInInputsOnly(g, s, p);
    var d := Link.DriveIn(g, s, p);
    RdataFifo.LinkCatches(d);
    hide Link.DriveIn, Link.CatchResp, Link.DriveEnd, Driven, RdataFifo.Arriving;
    RdataFifo.LinkTicks(d, Link.Requested(p));
    DriveEndAfu(d, Link.Requested(p));
  }

  class Bfm {
    const event: TlxInterface.AfuEvent
    const rdata: RdataFifo.Fifo
    var afuGranted: bool   // afu_tlx_credits_initialized
    var afuReady: bool     // tlx_afu_credits_initialized

    constructor (event: TlxInterface.AfuEvent, rdata: RdataFifo.Fifo)
      ensures this.event == event && this.rdata == rdata && !afuGranted && !afuReady
    {
      this.event, this.rdata, afuGranted, afuReady := event, rdata, false, false;
    }

    /** The driver's part of a link state. */
    ghost predicate Shows(s: Link.State)
      reads this, event, rdata, rdata.cells
    {
      && s.afu == event.View() && s.afuGranted == afuGranted && s.afuReady == afuReady
      && s.fifo == rdata.Contents() && s.rdCnt == rdata.rdCnt
    }

    /** Initial credits both ways. */
    method Grant(g: Link.Grants, ghost s: Link.State)
      requires event.View() == s.afu && afuGranted == s.afuGranted && afuReady == s.afuReady
      modifies this, event`host, event`afu, event`avail
      ensures afuGranted
      ensures var a := if s.afuGranted then s.afu else E.AfuSendInitialCredits(s.afu, g.hostCmd, g.cfg, g.hostResp);
        var (rc, b) := if s.afuReady then (E.NoCredits, a) else E.AfuReadInitialCredits(a);
        event.View() == b && afuReady == (s.afuReady || rc == E.Success)
    {
      hide E.AfuSendInitialCredits, E.AfuReadInitialCredits;
      if !afuGranted {
        event.AfuSendInitialCredits(g.hostCmd, g.cfg, g.hostResp);
        afuGranted := true;
      }
      if !afuReady {
        var rc := event.AfuReadInitialCredits();
        afuReady := rc == E.Success;
      }
    }

    /** The credits the AFU returns. */
    method ReturnCredits(p: Link.Pins)
      modifies event`afu
      ensures event.View() == Link.ReturnCredits(old(event.View()), p)
    {
      var valid := event.afu.creditReqValid || p.cfgCredit || p.respCredit || p.cmdCredit;
      var credits := event.afu.credits.(cfg := Bit(p.cfgCredit), resp := Bit(p.respCredit), cmd := Bit(p.cmdCredit));
      event.afu := event.afu.(creditReqValid := valid, credits := credits);
    }

    /** Initial credits once out of reset, then the credits the AFU returns. */
    method DriveCredits(g: Link.Grants, p: Link.Pins, ghost s: Link.State)
      requires event.View() == s.afu && afuGranted == s.afuGranted && afuReady == s.afuReady
      requires p.respCredit ==> s.owed > 0
      modifies this, event`host, event`afu, event`avail
      ensures var t := Link.DriveCredits(g, s, p);
        event.View() == t.afu && afuGranted == t.afuGranted && afuReady == t.afuReady
    {
      hide E.AfuSendInitialCredits, E.AfuReadInitialCredits, Link.ReturnCredits, TlxInterface.AfuEvent.View;
      if !p.reset {
        Grant(g, s);
      }
      ReturnCredits(p);
    }

    /** Commands, command data and responses the AFU presents. */
    method DriveSignals(p: Link.Pins, ghost s: Link.State)
      requires event.View() == s.afu
      modifies event`afu, event`avail
      ensures event.View() == Link.DriveResp(Link.DriveCmdData(Link.DriveCmd(s, p), p), p).afu
    {
      hide E.AfuSendCmd, E.AfuSendCmdData, E.AfuSendResp, E.AfuSendRespData, E.AfuSendRespAndData, E.AfuSendCfgResp;
      if p.cmd.Some? {
        var rc := event.AfuSendCmd(p.cmd.value);
      }
      if p.cmdData.Some? {
        var rc := event.AfuSendCmdData(p.cmdData.value);
      }
      if p.resp.Some? && p.respData.Some? {
        var rc := event.AfuSendRespAndData(p.resp.value, p.respData.value);
      } else if p.resp.Some? {
        var rc := event.AfuSendResp(p.resp.value);
      } else if p.respData.Some? {
        var rc := event.AfuSendRespData(p.respData.value);
      } else if p.cfgResp.Some? {
        var rc := event.AfuSendCfgResp(p.cfgResp.value);
      }
    }

    /** What was received is driven to the AFU and its flags cleared. */
    method DriveOutputs()
      modifies event`host
      ensures event.host == Driven(old(event.host))
    {
      var h := event.host;
      if h.resp.Some? {
        h := h.(resp := None, respData := None);
      }
      if h.cmd.Some? {
        h := h.(cmd := None, cmdData := None);
      }
      event.host := h.(cfg := None,
                       credits := h.credits.(resp := 0, respData := 0, cmd := 0, cmdData := 0, cfgAck := 0));
    }

    /** Everything the AFU presents on a driving edge. */
    method DriveInputs(g: Link.Grants, p: Link.Pins, ghost s: Link.State)
      requires event.View() == s.afu && afuGranted == s.afuGranted && afuReady == s.afuReady
      requires p.respCredit ==> s.owed > 0
      modifies this, event`host, event`afu, event`avail
      ensures var d := Link.DriveIn(g, s, p);
        event.View() == d.afu && afuGranted == d.afuGranted && afuReady == d.afuReady
    {
      Link.DriveInGrants(g, s, p);
      hide Link.DriveCredits, Link.DriveCmd, Link.DriveCmdData, Link.DriveResp, TlxInterface.AfuEvent.View;
      DriveCredits(g, p, s);
      DriveSignals(p, Link.DriveCredits(g, s, p));
    }

    /** The tick of the FIFO and the outputs. */
    method DriveRest(p: Link.Pins) returns (line: Option<Line>)
      requires rdata.Valid() && Link.DataFits(event.host)
      requires var arriving := RdataFifo.Arriving(event.host.resp, event.host.respData);
        rdata.rdCnt + Link.Requested(p) <= |rdata.cells| + |arriving|
      modifies event`host, rdata, rdata.Cells()
      ensures rdata.Valid() && event.host == Driven(old(event.host))
      ensures var fifo := old(rdata.Contents()) + RdataFifo.Arriving(old(event.host.resp), old(event.host.respData));
        var due := old(rdata.rdCnt) + Link.Requested(p);
        && rdata.Contents() == (if due > 0 then fifo[1..] else fifo)
        && line == (if due > 0 then Some(fifo[0]) else None)
        && rdata.rdCnt == (if due > 0 then due - 1 else 0)
    {
      hide Driven, DecodeRdCnt, RdataFifo.Fifo.Valid, RdataFifo.Fifo.Contents, RdataFifo.Arriving;
      line := rdata.Tick(p.respRdCnt, event.host.resp, event.host.respData);
      DriveOutputs();
    }

    /** Clock low: exactly the driving edge of the link model; line is what goes to the AFU's data bus. */
    method Drive(g: Link.Grants, p: Link.Pins, ghost s: Link.State) returns (line: Option<Line>)
      requires rdata.Valid() && Shows(s) && Link.AfuBehaves(s, p)
      modifies this, event`host, event`afu, event`avail, rdata, rdata.Cells()
      ensures rdata.Valid() && Shows(Link.DriveStep(g, s, p))
      ensures Link.DriveStep(g, s, p).popped == s.popped + Opt(line)
    {
      DriveStepParts(g, s, p);
      hide Link.DriveIn, Link.DriveStep, Driven, DecodeRdCnt, Link.Requested,
        RdataFifo.Fifo.Valid, RdataFifo.Fifo.Contents, RdataFifo.Arriving;
      DriveInputs(g, p, s);
      line := DriveRest(p);
    }

    /** Clock high: tlx_control takes the packet and transmits. */
    method Clock(packet: seq<Byte>, ghost s: Link.State) returns (sent: seq<seq<Byte>>)
      requires event.Valid() && rdata.Valid() && Shows(s) && |s.toAfu| > 0 && s.toAfu[0] == packet
      requires WholeHostPacket(packet)
      modifies event`host, event`afu, event`avail, event`clock, event.tbuf, event.rbuf
      ensures event.Valid() && rdata.Valid() && Shows(Link.ClockStep(s))
      ensures Link.ClockStep(s).toHost == s.toHost + sent
    {
      sent := event.GetTlxEvents(packet);
    }
  }
}
