/** Conservation of the credits ocse spends on commands to the AFU, which tlx_afu_send_cmd takes without testing its
    counter, and on configuration commands, which are tested for (common/tlx_interface.c). */
module LinkCmdCredits {
  import opened Common
  import opened TlxPacket
  import opened TlxEvent
  import opened Link
  import opened LinkInvariant
  import Driver

  /** Credits for commands to the AFU: ocse's counter, those of a command staged, in a packet or received, and those on
      their way back. */
  function Pool(s: State): nat {
    s.host.avail.afuTlxCmd + Count(s.host.host.cmd.Some?) + Count(HostWire(s.toAfu).cmd.Some?)
      + Count(s.afu.host.cmd.Some?) + Count(s.afu.afu.credits.cmd == 1)
      + Count(AfuWire(s.toHost).credits.Some? && AfuWire(s.toHost).credits.value.cmd == 1)
  }

  /** The same for configuration commands. */
  function CfgPool(s: State): nat {
    s.host.avail.cfgTlx + Count(s.host.host.cfg.Some?) + Count(HostWire(s.toAfu).cfg.Some?)
      + Count(s.afu.host.cfg.Some?) + Count(s.afu.afu.credits.cfg == 1)
      + Count(AfuWire(s.toHost).credits.Some? && AfuWire(s.toHost).credits.value.cfg == 1)
  }

  /** A returned credit is a flag that is going to be sent, and a received command is gone by the next packet. */
  predicate PathOk(s: State) {
    && s.afu.afu.credits.cmd < 2 && (s.afu.afu.credits.cmd == 1 ==> s.afu.afu.creditReqValid)
    && s.afu.afu.credits.cfg < 2 && (s.afu.afu.credits.cfg == 1 ==> s.afu.afu.creditReqValid)
    && (s.negedge ==> s.afu.afu.credits.cmd == s.afu.afu.credits.cfg == 0)
    && (!s.negedge ==> s.afu.host.cmd.None? && s.afu.host.cfg.None?)
  }

  /** Commands a step hands to the AFU, and credits the AFU returns in it. */
  function Delivered(s: State, a: Action): nat {
    if a.AfuDrive? then Count(s.afu.host.cmd.Some?) else 0
  }

  function Returned(a: Action): nat {
    if a.AfuDrive? then Count(a.pins.cmdCredit) else 0
  }

  function CfgDelivered(s: State, a: Action): nat {
    if a.AfuDrive? then Count(s.afu.host.cfg.Some?) else 0
  }

  function CfgReturned(a: Action): nat {
    if a.AfuDrive? then Count(a.pins.cfgCredit) else 0
  }

  /** A returned configuration credit is counted while the counter is 255. */
  predicate CfgOverflows(s: State, a: Action) {
    && a.HostGet? && s.host.avail.cfgTlx == 255
    && AfuWire(s.toHost).credits.Some? && AfuWire(s.toHost).credits.value.cfg == 1
  }

  /** A command is staged while the counter is 0, which becomes 255. */
  predicate Underflows(s: State, a: Action) {
    a.Host? && a.call.CallSendCmd? && s.host.host.cmd.None? && s.host.avail.afuTlxCmd == 0
  }

  /** A returned credit is counted while the counter is 255, which becomes 0. */
  predicate Overflows(s: State, a: Action) {
    && a.HostGet? && s.host.avail.afuTlxCmd == 255
    && AfuWire(s.toHost).credits.Some? && AfuWire(s.toHost).credits.value.cmd == 1
  }

  // ---------- each kind of step ----------

  lemma SignalPool(s: State)
    requires Lockstep(s) && WiresWhole(s) && PathOk(s)
    ensures Pool(SignalStep(s)) == Pool(s) && CfgPool(SignalStep(s)) == CfgPool(s) && PathOk(SignalStep(s))
  {
    if !s.host.clock {
      SignalShape(s);
      TransmitPool(s, SignalStep(s));
    } else {
      assert s.toAfu + [] == s.toAfu;
      assert SignalStep(s) == s;
    }
  }

  lemma TransmitPool(s: State, t: State)
    requires HostTransmitted(s, t) && PathOk(s)
    ensures Pool(t) == Pool(s) && CfgPool(t) == CfgPool(s) && PathOk(t)
  {
    hide HostWire, AfuWire;
  }

  lemma GetPool(g: Grants, s: State)
    requires Inv(g, s) && PathOk(s) && |s.toHost| > 0 && WholeAfuPacket(s.toHost[0])
    ensures PathOk(GetStep(s))
    ensures Pool(GetStep(s)) == Pool(s) - (if Overflows(s, HostGet) then 256 else 0)
    ensures CfgPool(GetStep(s)) == CfgPool(s) - (if CfgOverflows(s, HostGet) then 256 else 0)
  {
    GetShape(s);
    ReceivePool(s, GetStep(s), AfuWire(s.toHost));
  }

  lemma ReceivePool(s: State, t: State, w: AfuGroups)
    requires HostReceived(s, t, w) && PathOk(s) && s.host.clock && (s.host.clock ==> HostIdle(s.host.host))
    ensures PathOk(t) && Pool(t) == Pool(s) - (if Overflows(s, HostGet) then 256 else 0)
    ensures CfgPool(t) == CfgPool(s) - (if CfgOverflows(s, HostGet) then 256 else 0)
  {
    hide HostWire, AfuWire;
  }

  lemma HostPool(s: State, c: HostCall)
    requires CallAllowed(s, c) && !c.ReadInitial? && PathOk(s)
    ensures var t := HostStep(s, c);
      PathOk(t) && Pool(t) == Pool(s) + (if Underflows(s, Host(c)) then 256 else 0)
  {
    hide HostWire, AfuWire, DlToSize, RespSlice;
  }

  lemma HostCfgPool(s: State, c: HostCall)
    requires CallAllowed(s, c) && !c.ReadInitial?
    ensures CfgPool(HostStep(s, c)) == CfgPool(s)
  {
    hide HostWire, AfuWire, DlToSize, RespSlice;
  }

  lemma ClockPool(g: Grants, s: State)
    requires Inv(g, s) && PathOk(s) && !s.negedge && |s.toAfu| > 0 && WholeHostPacket(s.toAfu[0])
    ensures PathOk(ClockStep(s)) && Pool(ClockStep(s)) == Pool(s) && CfgPool(ClockStep(s)) == CfgPool(s)
  {
    ClockShape(s);
    ExchangePool(s, ClockStep(s), HostWire(s.toAfu));
  }

  lemma ExchangePool(s: State, t: State, w: HostGroups)
    requires AfuExchanged(s, t, w) && PathOk(s) && !s.negedge
    ensures PathOk(t) && Pool(t) == Pool(s) && CfgPool(t) == CfgPool(s)
  {
    hide HostWire, AfuWire;
  }

  /** The driving edge's inputs set the credit flag and nothing else of the path. */
  lemma InputsPool(g: Grants, s: State, p: Pins)
    requires p.respCredit ==> s.owed > 0
    requires p.reset ==> !p.cfgCredit && !p.respCredit && !p.cmdCredit
    ensures var d := DriveIn(g, s, p);
      && d.afu.afu.credits.cmd == Bit(p.cmdCredit) && d.afu.afu.credits.cfg == Bit(p.cfgCredit)
      && (p.cmdCredit || p.cfgCredit ==> d.afu.afu.creditReqValid)
  {
    CreditFlag(g, s, p);
    hide DriveCredits, DriveCmd, DriveCmdData, DriveResp;
    var s1 := DriveCredits(g, s, p);
    CmdKeepsFlag(s1, p);
    CmdKeepsFlag(DriveCmd(s1, p), p);
    DriveRespShape(DriveCmdData(DriveCmd(s1, p), p), p);
  }

  lemma CreditFlag(g: Grants, s: State, p: Pins)
    requires p.respCredit ==> s.owed > 0
    ensures var d := DriveCredits(g, s, p).afu.afu;
      && d.credits.cmd == Bit(p.cmdCredit) && d.credits.cfg == Bit(p.cfgCredit)
      && (p.cmdCredit || p.cfgCredit ==> d.creditReqValid)
  {
  }

  lemma CmdKeepsFlag(s: State, p: Pins)
    ensures var t, u := DriveCmd(s, p).afu.afu, DriveCmdData(s, p).afu.afu;
      && t.credits == s.afu.afu.credits && t.creditReqValid == s.afu.afu.creditReqValid
      && u.credits == s.afu.afu.credits && u.creditReqValid == s.afu.afu.creditReqValid
  {
  }

  lemma DrivePool(g: Grants, s: State, p: Pins)
    requires PathOk(s) && s.negedge && AfuBehaves(s, p)
    ensures var t := DriveStep(g, s, p);
      && PathOk(t) && Pool(t) + Delivered(s, AfuDrive(p)) == Pool(s) + Returned(AfuDrive(p))
      && CfgPool(t) + CfgDelivered(s, AfuDrive(p)) == CfgPool(s) + CfgReturned(AfuDrive(p))
  {
    RequestedLines(g, s, p);
    DriveInInputsOnly(g, s, p);
    InputsPool(g, s, p);
    DriveStepIs(g, s, p);
    var d := DriveIn(g, s, p);
    Driver.DriveEndAfu(d, Requested(p));
    EndLeaves(d, Requested(p));
    hide DriveIn, DriveStep, DriveEnd, CatchResp, Requested, AfuBehaves, Pool, CfgPool, PathOk;
    DriveJoins(s, p, DriveStep(g, s, p));
  }

  lemma DriveJoins(s: State, p: Pins, t: State)
    requires PathOk(s) && s.negedge && !t.negedge && t.host == s.host && t.toAfu == s.toAfu && t.toHost == s.toHost
    requires t.afu.host.cmd.None? && t.afu.host.cfg.None?
    requires t.afu.afu.credits.cmd == Bit(p.cmdCredit) && t.afu.afu.credits.cfg == Bit(p.cfgCredit)
    requires p.cmdCredit || p.cfgCredit ==> t.afu.afu.creditReqValid
    ensures PathOk(t) && Pool(t) + Delivered(s, AfuDrive(p)) == Pool(s) + Returned(AfuDrive(p))
    ensures CfgPool(t) + CfgDelivered(s, AfuDrive(p)) == CfgPool(s) + CfgReturned(AfuDrive(p))
  {
    hide HostWire, AfuWire;
  }

  /** Each step changes the pool by what the AFU returns less what it is handed, exactly; the counter wraps down if and
      only if a command is staged while it is 0, and up if and only if a credit is counted while it is 255. */
  lemma StepPool(g: Grants, s: State, a: Action)
    requires Inv(g, s) && PathOk(s) && Enabled(g, s, a) && a != Host(ReadInitial)
    ensures PathOk(Step(g, s, a))
    ensures Pool(Step(g, s, a)) + Delivered(s, a) + (if Overflows(s, a) then 256 else 0)
      == Pool(s) + Returned(a) + (if Underflows(s, a) then 256 else 0)
    ensures CfgPool(Step(g, s, a)) + CfgDelivered(s, a) + (if CfgOverflows(s, a) then 256 else 0)
      == CfgPool(s) + CfgReturned(a)
  {
    hide Pool, CfgPool, PathOk, HostStep;
    match a
    case HostSignal => SignalPool(s);
    case HostGet => GetPool(g, s);
    case Host(c) =>
      HostPool(s, c);
      HostCfgPool(s, c);
    case AfuDrive(p) => DrivePool(g, s, p);
    case AfuClock => ClockPool(g, s);
  }

  // ---------- runs ----------

  lemma {:induction false} RunPath(g: Grants, negedge: bool, states: seq<State>, acts: seq<Action>, n: nat)
    requires Run(g, negedge, states, acts) && n < |states|
    ensures PathOk(states[n])
  {
    if n > 0 {
      RunPath(g, negedge, states, acts, n - 1);
      RunInv(g, negedge, states, acts, n - 1);
      hide Inv, PathOk, Step, Enabled;
      if acts[n - 1] == Host(ReadInitial) {
        ReadInitialPath(g, states[n - 1]);
      } else {
        StepPool(g, states[n - 1], acts[n - 1]);
      }
    }
  }

  lemma ReadInitialPath(g: Grants, s: State)
    requires PathOk(s) && Enabled(g, s, Host(ReadInitial))
    ensures PathOk(Step(g, s, Host(ReadInitial)))
  {
  }

  /** Commands with the AFU, less credits it has returned, since step m. */
  function Held(states: seq<State>, acts: seq<Action>, m: nat, n: nat): int
    requires m <= n <= |acts| < |states|
    decreases n - m
  {
    if m == n then 0
    else Held(states, acts, m, n - 1) + Delivered(states[n - 1], acts[n - 1]) - Returned(acts[n - 1])
  }

  /** Wraps of the counter since step m, downwards less upwards. */
  function Wraps(states: seq<State>, acts: seq<Action>, m: nat, n: nat): int
    requires m <= n <= |acts| < |states|
    decreases n - m
  {
    if m == n then 0
    else
      var s, a := states[n - 1], acts[n - 1];
      Wraps(states, acts, m, n - 1) + (if Underflows(s, a) then 1 else 0) - (if Overflows(s, a) then 1 else 0)
  }

  lemma RunStepPool(g: Grants, negedge: bool, states: seq<State>, acts: seq<Action>, k: nat)
    requires Run(g, negedge, states, acts) && k < |acts| && acts[k] != Host(ReadInitial)
    ensures var s, a := states[k], acts[k];
      && Pool(states[k + 1]) + Delivered(s, a) + (if Overflows(s, a) then 256 else 0)
        == Pool(s) + Returned(a) + (if Underflows(s, a) then 256 else 0)
      && CfgPool(states[k + 1]) + CfgDelivered(s, a) + (if CfgOverflows(s, a) then 256 else 0)
        == CfgPool(s) + CfgReturned(a)
  {
    RunPath(g, negedge, states, acts, k);
    RunInv(g, negedge, states, acts, k);
    hide Inv, PathOk, Step, Enabled, Pool, Delivered, Returned, Underflows, Overflows, CfgPool, CfgDelivered,
      CfgReturned, CfgOverflows;
    StepPool(g, states[k], acts[k]);
  }

  /** Once ocse has read its grant its credits for commands are conserved over every run, whatever the AFU returns: the
      pool and what the AFU holds stay the same sum, but for 256 each time the counter wraps. */
  lemma {:induction false} CmdCreditsConserved(g: Grants, negedge: bool, states: seq<State>, acts: seq<Action>, m: nat,
      n: nat)
    requires Run(g, negedge, states, acts) && m <= n <= |acts|
    requires forall k :: m <= k < n ==> acts[k] != Host(ReadInitial)
    ensures Pool(states[n]) + Held(states, acts, m, n) == Pool(states[m]) + 256 * Wraps(states, acts, m, n)
    decreases n - m
  {
    if m < n {
      hide Run, Pool, Delivered, Returned, Underflows, Overflows, CfgPool, CfgDelivered, CfgReturned, CfgOverflows;
      CmdCreditsConserved(g, negedge, states, acts, m, n - 1);
      RunStepPool(g, negedge, states, acts, n - 1);
    }
  }

  /** Configuration commands with the AFU, less credits it has returned, and wraps of their counter, since step m. */
  function CfgHeld(states: seq<State>, acts: seq<Action>, m: nat, n: nat): int
    requires m <= n <= |acts| < |states|
    decreases n - m
  {
    if m == n then 0
    else CfgHeld(states, acts, m, n - 1) + CfgDelivered(states[n - 1], acts[n - 1]) - CfgReturned(acts[n - 1])
  }

  function CfgWraps(states: seq<State>, acts: seq<Action>, m: nat, n: nat): nat
    requires m <= n <= |acts| < |states|
    decreases n - m
  {
    if m == n then 0 else CfgWraps(states, acts, m, n - 1) + Count(CfgOverflows(states[n - 1], acts[n - 1]))
  }

  /** The same for configuration commands, whose counter never wraps downwards. */
  lemma {:induction false} CfgCreditsConserved(g: Grants, negedge: bool, states: seq<State>, acts: seq<Action>, m: nat,
      n: nat)
    requires Run(g, negedge, states, acts) && m <= n <= |acts|
    requires forall k :: m <= k < n ==> acts[k] != Host(ReadInitial)
    ensures CfgPool(states[n]) + CfgHeld(states, acts, m, n) + 256 * CfgWraps(states, acts, m, n) == CfgPool(states[m])
    decreases n - m
  {
    if m < n {
      hide Run, Pool, Delivered, Returned, Underflows, Overflows, CfgPool, CfgDelivered, CfgReturned, CfgOverflows;
      CfgCreditsConserved(g, negedge, states, acts, m, n - 1);
      RunStepPool(g, negedge, states, acts, n - 1);
    }
  }

  // ---------- where the counters start ----------

  predicate Granted(g: Grants, c: AfuCredits) {
    c.cmdInitial == g.hostCmd && c.cfgInitial == g.cfg && c.respInitial == g.hostResp
  }

  /** Wherever the AFU's grant is about to be read it is the one the AFU made. */
  predicate GrantKept(g: Grants, s: State) {
    && (s.afuGranted ==> Granted(g, s.afu.afu.credits))
    && (s.afu.afu.creditReqValid ==> s.afuGranted)
    && (AfuWire(s.toHost).credits.Some? ==> Granted(g, AfuWire(s.toHost).credits.value))
    && (s.host.afu.creditReqValid ==> Granted(g, s.host.afu.credits))
  }

  lemma SignalKeepsGrant(g: Grants, s: State)
    requires GrantKept(g, s)
    ensures GrantKept(g, SignalStep(s))
  {
    hide AfuWire, HostPacket;
  }

  lemma GetKeepsGrant(g: Grants, s: State)
    requires Inv(g, s) && GrantKept(g, s) && |s.toHost| > 0 && WholeAfuPacket(s.toHost[0])
    ensures GrantKept(g, GetStep(s))
  {
    GetShape(s);
    TakenGrant(g, s, GetStep(s), AfuWire(s.toHost));
  }

  lemma TakenGrant(g: Grants, s: State, t: State, w: AfuGroups)
    requires HostReceived(s, t, w) && GrantKept(g, s)
    ensures GrantKept(g, t)
  {
    hide AfuWire;
  }

  lemma HostKeepsGrant(g: Grants, s: State, c: HostCall)
    requires CallAllowed(s, c) && GrantKept(g, s)
    ensures GrantKept(g, HostStep(s, c))
  {
    hide AfuWire, DlToSize, RespSlice;
  }

  lemma ClockKeepsGrant(g: Grants, s: State)
    requires Inv(g, s) && GrantKept(g, s) && !s.negedge && |s.toAfu| > 0 && WholeHostPacket(s.toAfu[0])
    ensures GrantKept(g, ClockStep(s))
  {
    ClockShape(s);
    ExchangedGrant(g, s, ClockStep(s), HostWire(s.toAfu));
  }

  lemma ExchangedGrant(g: Grants, s: State, t: State, w: HostGroups)
    requires AfuExchanged(s, t, w) && GrantKept(g, s)
    ensures GrantKept(g, t)
  {
    hide AfuWire, HostWire;
  }

  lemma CreditsGranted(g: Grants, s: State, p: Pins)
    requires p.respCredit ==> s.owed > 0
    requires p.reset ==> !p.cfgCredit && !p.respCredit && !p.cmdCredit
    requires (s.afuGranted ==> Granted(g, s.afu.afu.credits)) && (s.afu.afu.creditReqValid ==> s.afuGranted)
    ensures var d := DriveCredits(g, s, p);
      (d.afuGranted ==> Granted(g, d.afu.afu.credits)) && (d.afu.afu.creditReqValid ==> d.afuGranted)
  {
  }

  lemma DriveKeepsGrant(g: Grants, s: State, p: Pins)
    requires GrantKept(g, s) && AfuBehaves(s, p)
    ensures GrantKept(g, DriveStep(g, s, p))
  {
    RequestedLines(g, s, p);
    DriveStepIs(g, s, p);
    var d := DriveIn(g, s, p);
    Driver.DriveEndAfu(d, Requested(p));
    EndLeaves(d, Requested(p));
    DriveInInputsOnly(g, s, p);
    CreditsGranted(g, s, p);
    DriveInGrants(g, s, p);
    var s1 := DriveCredits(g, s, p);
    var s2 := DriveCmd(s1, p);
    var s3 := DriveCmdData(s2, p);
    CmdKeepsFlag(s1, p);
    CmdKeepsFlag(s2, p);
    DriveRespShape(s3, p);
    assert d == DriveResp(s3, p);
    hide DriveIn, DriveCredits, DriveCmd, DriveCmdData, DriveResp, DriveStep, DriveEnd, CatchResp, Requested, AfuWire,
      AfuBehaves, Granted;
  }

  lemma StepKeepsGrant(g: Grants, s: State, a: Action)
    requires Inv(g, s) && GrantKept(g, s) && Enabled(g, s, a)
    ensures GrantKept(g, Step(g, s, a))
  {
    hide GrantKept, HostStep;
    match a
    case HostSignal => SignalKeepsGrant(g, s);
    case HostGet => GetKeepsGrant(g, s);
    case Host(c) => HostKeepsGrant(g, s, c);
    case AfuDrive(p) => DriveKeepsGrant(g, s, p);
    case AfuClock => ClockKeepsGrant(g, s);
  }

  lemma {:induction false} RunGrant(g: Grants, negedge: bool, states: seq<State>, acts: seq<Action>, n: nat)
    requires Run(g, negedge, states, acts) && n < |states|
    ensures GrantKept(g, states[n])
  {
    if n > 0 {
      RunGrant(g, negedge, states, acts, n - 1);
      RunInv(g, negedge, states, acts, n - 1);
      hide Inv, GrantKept, Step, Enabled;
      StepKeepsGrant(g, states[n - 1], acts[n - 1]);
    }
  }

  /** In every run, when ocse reads the AFU's grant each counter starts at exactly what the AFU granted, and the
      grant is taken. */
  lemma StartsAtGrant(g: Grants, negedge: bool, states: seq<State>, acts: seq<Action>, n: nat)
    requires Run(g, negedge, states, acts) && n < |acts| && acts[n] == Host(ReadInitial) && states[n + 1].hostReady
    ensures var a := states[n + 1].host.avail;
      && a.afuTlxCmd == g.hostCmd && a.cfgTlx == g.cfg && a.afuTlxResp == g.hostResp
      && !states[n + 1].host.afu.creditReqValid
  {
    RunGrant(g, negedge, states, acts, n);
    assert Enabled(g, states[n], acts[n]) && states[n + 1] == Step(g, states[n], acts[n]);
  }
}
