/** Conservation of the credits the AFU spends on its responses and their data (common/tlx_interface.c). */
module LinkAfuCredits {
  import opened Common
  import opened TlxPacket
  import opened TlxEvent
  import opened Link
  import opened LinkInvariant
  import Driver

  /** Credits for AFU responses: the AFU's counter, those of a response staged, in a packet or received and not yet read
      by ocse, and those on their way back. */
  function RespPool(s: State): nat {
    s.afu.avail.tlxAfuResp + Count(s.afu.afu.resp.Some?) + Count(AfuWire(s.toHost).resp.Some?)
      + Count(s.host.afu.resp.Some?) + Count(s.host.host.credits.resp == 1)
      + Count(HostWire(s.toAfu).credits.Some? && HostWire(s.toAfu).credits.value.resp == 1)
  }

  /** The same for their data beats. */
  function DataPool(s: State): nat {
    s.afu.avail.tlxAfuRespData + Count(s.afu.afu.respData.Some?) + Count(AfuWire(s.toHost).respData.Some?)
      + Count(s.host.afu.respData.Some?) + Count(s.host.host.credits.respData == 1)
      + Count(HostWire(s.toAfu).credits.Some? && HostWire(s.toAfu).credits.value.respData == 1)
  }

  /** No more credits than were granted, and a response ocse has not read has not been returned for. */
  predicate PoolsOk(g: Grants, s: State) {
    && RespPool(s) <= (if s.afuReady then g.resp else 0)
    && DataPool(s) <= (if s.afuReady then g.respData else 0)
    && (s.host.afu.resp.Some? ==> s.host.host.credits.resp == 0)
    && (s.host.afu.respData.Some? ==> s.host.host.credits.respData == 0)
  }

  /** A packet with more than the clock takes the place of a response, or a beat, that ocse has not read. */
  predicate DropsResp(s: State, a: Action) {
    a.HostGet? && |s.toHost| > 0 && s.toHost[0] != [0x10] && s.host.afu.resp.Some?
  }

  predicate DropsData(s: State, a: Action) {
    a.HostGet? && |s.toHost| > 0 && s.toHost[0] != [0x10] && s.host.afu.respData.Some?
  }

  /** What one step does to both pools. */
  predicate Conserves(g: Grants, s: State, a: Action, t: State) {
    var granted := Count(!s.afuReady && t.afuReady);
    && RespPool(t) + Count(DropsResp(s, a)) == RespPool(s) + granted * g.resp
    && DataPool(t) + Count(DropsData(s, a)) == DataPool(s) + granted * g.respData
    && (s.afuReady ==> t.afuReady)
    && (t.host.afu.resp.Some? ==> t.host.host.credits.resp == 0)
    && (t.host.afu.respData.Some? ==> t.host.host.credits.respData == 0)
  }

  lemma ConservesOk(g: Grants, s: State, a: Action, t: State)
    requires PoolsOk(g, s) && Conserves(g, s, a, t)
    ensures PoolsOk(g, t)
  {
    hide RespPool, DataPool, DropsResp, DropsData;
  }

  // ---------- each kind of step ----------

  lemma SignalConserves(g: Grants, s: State)
    requires Inv(g, s) && PoolsOk(g, s)
    ensures Conserves(g, s, HostSignal, SignalStep(s))
  {
    if !s.host.clock {
      SignalShape(s);
      TransmitConserves(g, s, SignalStep(s));
    } else {
      assert s.toAfu + [] == s.toAfu;
      assert SignalStep(s) == s;
    }
  }

  lemma TransmitConserves(g: Grants, s: State, t: State)
    requires HostTransmitted(s, t) && PoolsOk(g, s) && HostCreditsWillBeSent(g, s.host.host)
    ensures Conserves(g, s, HostSignal, t)
  {
    hide HostWire, AfuWire;
  }

  /** What tlx_get_afu_events takes, and that it takes nothing from the bare clock. */
  ghost predicate Took(s: State, t: State, w: AfuGroups)
    requires |s.toHost| > 0
  {
    && t == s.(host := t.host, toHost := t.toHost)
    && AfuWire(s.toHost) == w && AfuWire(t.toHost) == NO_AFU_GROUPS
    && t.host == (if s.toHost[..1] == [[0x10]] then s.host.(clock := false)
                  else HostTakes(s.host.(clock := false), w))
    && (s.toHost[..1] == [[0x10]] ==> w == NO_AFU_GROUPS)
  }

  lemma GetTakes(g: Grants, s: State)
    requires Inv(g, s) && |s.toHost| > 0 && WholeAfuPacket(s.toHost[0])
    ensures Took(s, GetStep(s), AfuWire(s.toHost)) && s.host.clock && HostIdle(s.host.host) && |s.toHost| == 1
  {
    BareClock();
    assert s.toHost[..1] == [s.toHost[0]] && s.toHost[1..] == [];
    hide HostTakes, ParseAfuPacket;
  }

  lemma BareClock()
    ensures WholeAfuPacket([0x10]) ==> ParseAfuPacket([0x10]) == NO_AFU_GROUPS
    ensures AfuWire([]) == NO_AFU_GROUPS
  {
  }

  lemma TookConserves(g: Grants, s: State, t: State, w: AfuGroups)
    requires |s.toHost| == 1 && Took(s, t, w) && PoolsOk(g, s) && HostIdle(s.host.host)
    ensures Conserves(g, s, HostGet, t)
  {
    assert s.toHost[..1] == [s.toHost[0]];
    TakesEffect(s.host.(clock := false), w);
    hide HostWire, AfuWire, HostTakes;
  }

  lemma TakesEffect(e: Event, w: AfuGroups)
    ensures var r := HostTakes(e, w);
      && r.afu.resp == w.resp && r.afu.respData == w.respData
      && r.host.credits.resp == (if w.resp.Some? then e.host.credits.resp else 0)
      && r.host.credits.respData == (if w.respData.Some? then e.host.credits.respData else 0)
  {
  }

  lemma HostConserves(g: Grants, s: State, c: HostCall)
    requires CallAllowed(s, c) && PoolsOk(g, s)
    ensures Conserves(g, s, Host(c), HostStep(s, c))
  {
    hide HostWire, AfuWire, DlToSize, RespSlice;
  }

  lemma ClockConserves(g: Grants, s: State)
    requires Inv(g, s) && PoolsOk(g, s) && !s.negedge && |s.toAfu| > 0 && WholeHostPacket(s.toAfu[0])
    ensures Conserves(g, s, AfuClock, ClockStep(s))
  {
    ClockShape(s);
    ExchangeConserves(g, s, ClockStep(s), HostWire(s.toAfu));
  }

  lemma ExchangeConserves(g: Grants, s: State, t: State, w: HostGroups)
    requires AfuExchanged(s, t, w) && PoolsOk(g, s)
    ensures Conserves(g, s, AfuClock, t)
  {
    hide HostWire, AfuWire;
  }

  // ---------- the driving edge ----------

  /** The AFU's part of both pools. */
  function AfuResp(e: Event): nat { e.avail.tlxAfuResp + Count(e.afu.resp.Some?) }
  function AfuData(e: Event): nat { e.avail.tlxAfuRespData + Count(e.afu.respData.Some?) }

  lemma GrantTaken(g: Grants, s: State, p: Pins)
    requires p.respCredit ==> s.owed > 0
    requires s.afu.host.creditValid ==> HostGrantIn(g, s.afu.host.credits)
    requires !s.afuReady ==> AfuResp(s.afu) == AfuData(s.afu) == 0
    ensures var d := DriveCredits(g, s, p);
      var granted := Count(!s.afuReady && d.afuReady);
      && AfuResp(d.afu) == AfuResp(s.afu) + granted * g.resp
      && AfuData(d.afu) == AfuData(s.afu) + granted * g.respData
      && (s.afuReady ==> d.afuReady)
  {
  }

  lemma CmdKeeps(s: State, p: Pins)
    ensures var t, u := DriveCmd(s, p), DriveCmdData(s, p);
      && AfuResp(t.afu) == AfuResp(s.afu) && AfuData(t.afu) == AfuData(s.afu) && t.afuReady == s.afuReady
      && AfuResp(u.afu) == AfuResp(s.afu) && AfuData(u.afu) == AfuData(s.afu) && u.afuReady == s.afuReady
  {
  }

  /** A response staged takes its credits, a refused one none. */
  lemma RespKeeps(s: State, p: Pins)
    ensures var t := DriveResp(s, p);
      AfuResp(t.afu) == AfuResp(s.afu) && AfuData(t.afu) == AfuData(s.afu) && t.afuReady == s.afuReady
  {
    if p.resp.Some? && p.respData.Some? {
      hide AfuSendResp, AfuSendRespData, AfuSendCfgResp;
    } else {
      hide AfuSendRespAndData;
    }
  }

  lemma InputsConserve(g: Grants, s: State, p: Pins)
    requires p.respCredit ==> s.owed > 0
    requires s.afu.host.creditValid ==> HostGrantIn(g, s.afu.host.credits)
    requires !s.afuReady ==> AfuResp(s.afu) == AfuData(s.afu) == 0
    ensures var d := DriveIn(g, s, p);
      var granted := Count(!s.afuReady && d.afuReady);
      && AfuResp(d.afu) == AfuResp(s.afu) + granted * g.resp
      && AfuData(d.afu) == AfuData(s.afu) + granted * g.respData
      && (s.afuReady ==> d.afuReady)
  {
    GrantTaken(g, s, p);
    hide DriveCredits, DriveCmd, DriveCmdData, DriveResp, AfuResp, AfuData;
    var s1 := DriveCredits(g, s, p);
    CmdKeeps(s1, p);
    CmdKeeps(DriveCmd(s1, p), p);
    RespKeeps(DriveCmdData(DriveCmd(s1, p), p), p);
  }

  lemma DriveConserves(g: Grants, s: State, p: Pins)
    requires Inv(g, s) && PoolsOk(g, s) && s.negedge && AfuBehaves(s, p)
    ensures Conserves(g, s, AfuDrive(p), DriveStep(g, s, p))
  {
    assert GrantsIntact(g, s);
    RequestedLines(g, s, p);
    DriveInInputsOnly(g, s, p);
    InputsConserve(g, s, p);
    DriveStepIs(g, s, p);
    var d := DriveIn(g, s, p);
    Driver.DriveEndAfu(d, Requested(p));
    EndLeaves(d, Requested(p));
    hide DriveIn, DriveStep, DriveEnd, CatchResp, Requested, AfuBehaves, Inv, Conserves, Driver.Driven;
    DriveJoins(g, s, p, DriveStep(g, s, p));
  }

  lemma DriveJoins(g: Grants, s: State, p: Pins, t: State)
    requires PoolsOk(g, s) && t.host == s.host && t.toAfu == s.toAfu && t.toHost == s.toHost
    requires var granted := Count(!s.afuReady && t.afuReady);
      && AfuResp(t.afu) == AfuResp(s.afu) + granted * g.resp
      && AfuData(t.afu) == AfuData(s.afu) + granted * g.respData
      && (s.afuReady ==> t.afuReady)
    ensures Conserves(g, s, AfuDrive(p), t)
  {
    hide HostWire, AfuWire;
  }

  lemma StepConserves(g: Grants, s: State, a: Action)
    requires Inv(g, s) && PoolsOk(g, s) && Enabled(g, s, a)
    ensures Conserves(g, s, a, Step(g, s, a))
  {
    hide Conserves, HostStep, PoolsOk;
    match a
    case HostSignal => SignalConserves(g, s);
    case HostGet =>
      GetTakes(g, s);
      TookConserves(g, s, GetStep(s), AfuWire(s.toHost));
    case Host(c) => HostConserves(g, s, c);
    case AfuDrive(p) => DriveConserves(g, s, p);
    case AfuClock => ClockConserves(g, s);
  }

  // ---------- runs ----------

  lemma {:induction false} RunPools(g: Grants, negedge: bool, states: seq<State>, acts: seq<Action>, n: nat)
    requires Run(g, negedge, states, acts) && n < |states|
    ensures PoolsOk(g, states[n])
  {
    if n > 0 {
      RunPools(g, negedge, states, acts, n - 1);
      RunInv(g, negedge, states, acts, n - 1);
      hide Inv, PoolsOk, Conserves, Step, Enabled;
      StepConserves(g, states[n - 1], acts[n - 1]);
      ConservesOk(g, states[n - 1], acts[n - 1], states[n]);
    }
  }

  /** Responses, and beats, that ocse had not read when the next packet came. */
  function DroppedResps(states: seq<State>, acts: seq<Action>, n: nat): nat
    requires n <= |acts| < |states|
  {
    if n == 0 then 0 else DroppedResps(states, acts, n - 1) + Count(DropsResp(states[n - 1], acts[n - 1]))
  }

  function DroppedData(states: seq<State>, acts: seq<Action>, n: nat): nat
    requires n <= |acts| < |states|
  {
    if n == 0 then 0 else DroppedData(states, acts, n - 1) + Count(DropsData(states[n - 1], acts[n - 1]))
  }

  /** In every state of every run the AFU's credits for responses, and for their data, add up to ocse's grant from the
      moment the AFU has read it, less one for each that ocse did not read in time; so a counter never passes the grant
      or wraps, and while ocse reads everything none is ever lost. */
  lemma {:induction false} AfuCreditsConserved(g: Grants, negedge: bool, states: seq<State>, acts: seq<Action>, n: nat)
    requires Run(g, negedge, states, acts) && n < |states|
    ensures RespPool(states[n]) + DroppedResps(states, acts, n) == if states[n].afuReady then g.resp else 0
    ensures DataPool(states[n]) + DroppedData(states, acts, n) == if states[n].afuReady then g.respData else 0
    ensures states[n].afu.avail.tlxAfuResp <= g.resp && states[n].afu.avail.tlxAfuRespData <= g.respData
  {
    if n > 0 {
      AfuCreditsConserved(g, negedge, states, acts, n - 1);
      RunPools(g, negedge, states, acts, n - 1);
      RunInv(g, negedge, states, acts, n - 1);
      hide Inv, PoolsOk, Step, Enabled, DropsResp, DropsData;
      StepConserves(g, states[n - 1], acts[n - 1]);
    }
  }
}
