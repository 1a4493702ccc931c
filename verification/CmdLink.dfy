/** The command engine joined to the link: what each handler asks of the link, what the link answers, and what then
    holds of every run of both together. */
module CmdLink {
  import opened Common
  import opened TlxPacket
  import E = TlxEvent
  import opened CmdEngine
  import opened CmdInvariant
  import opened CmdTheorems
  import opened CmdBounds
  import opened CmdCodes
  import Link
  import LinkInvariant

  // ---------- one handler and the link's event ----------

  /** handle_response offers its answer, if there is one. */
  function Offered(cl: nat, s: State, e: E.Event, bdi: Byte): (Option<E.Rc>, E.Event)
    requires CanRespond(cl, s)
  {
    var i := First(s.list, ToRespond);
    if i == |s.list| then (None, e)
    else
      var (rc, after) := SendMsg(e, NextPart(cl, s.list[i]), bdi);
      (Some(rc), after)
  }

  /** handle_xlate_intrp_pending_sent offers its completion, if there is one. */
  function OfferedPosted(s: State, e: E.Event, pick: Option<nat>, posted: Allow): (Option<E.Rc>, E.Event)
    requires Pickable(s, pick)
  {
    match Posting(s, pick, posted)
    case None => (None, e)
    case Some(m) =>
      var (rc, after) := E.SendResp(e, m.r);
      (Some(rc), after)
  }

  /** The outcome a step records is the link's. */
  predicate Agrees(cl: nat, s: State, e: E.Event, a: Step, bdi: Byte)
    requires Enabled(cl, s, a)
  {
    match a
    case Respond(accept) => accept == (Offered(cl, s, e, bdi).0 == Some(E.Success))
    case FinishPending(pick, posted, ok) => ok == (OfferedPosted(s, e, pick, posted).0 == Some(E.Success))
    case _ => true
  }

  /** The link's event after a handler. */
  function OnLink(cl: nat, s: State, e: E.Event, a: Step, bdi: Byte): E.Event
    requires Enabled(cl, s, a)
  {
    match a
    case Respond(_) => Offered(cl, s, e, bdi).1
    case FinishPending(pick, posted, _) => OfferedPosted(s, e, pick, posted).1
    case Parse(pos) => var t := HandleCmd(s, pos); e.(afu := e.afu.(cmd := t.cmd, cmdData := t.cdata))
    case CmdData => var t := HandleCmdData(s); e.(afu := e.afu.(cmd := t.cmd, cmdData := t.cdata))
    case _ => e
  }

  // ---------- the calls a handler makes ----------

  function Calls(cl: nat, s: State, a: Step, bdi: Byte): seq<Link.HostCall>
    requires Enabled(cl, s, a)
  {
    match a
    case Respond(_) =>
      var i := First(s.list, ToRespond);
      if i == |s.list| then []
      else
        var p := NextPart(cl, s.list[i]);
        if AnswersWithData(p) then [Link.CallSendRespAndData(RespOf(p), bdi, p.data)]
        else [Link.CallSendResp(RespOf(p))]
    case FinishPending(pick, posted, _) =>
      var m := Posting(s, pick, posted);
      if m.Some? then [Link.CallSendResp(m.value.r)] else []
    case Parse(pos) =>
      var t := HandleCmd(s, pos);
      [Link.CallReadCmdAndData]
        + if s.cmd.Some? && t.cdata.Some? then [Link.CallRestoreCmdData(t.cdata.value)] else []
    case CmdData => if First(s.list, ToFill) < |s.list| then [Link.CallReadCmdData] else []
    case _ => []
  }

  predicate CallsAllowed(l: Link.State, calls: seq<Link.HostCall>) {
    forall c :: c in calls ==> !c.ReadInitial? && (c.CallSendRespAndData? ==> Link.CallAllowed(l, c))
  }

  function Called(l: Link.State, calls: seq<Link.HostCall>): Link.State
    requires CallsAllowed(l, calls)
    decreases |calls|
  {
    if calls == [] then l else Called(Link.HostStep(l, calls[0]), calls[1..])
  }

  lemma CallsAreAllowed(cl: nat, s: State, a: Step, bdi: Byte, l: Link.State)
    requires Enabled(cl, s, a)
    ensures CallsAllowed(l, Calls(cl, s, a, bdi))
  {
  }

  function DataOf(m: Option<Msg>): seq<Byte> {
    if m.Some? && m.value.data.Some? then m.value.data.value else []
  }

  /** The calls have exactly the effect stated for the handler, and put exactly the accepted message's data behind the
      payloads sent so far. */
  lemma CallsOnLink(cl: nat, s: State, a: Step, bdi: Byte, l: Link.State)
    requires Enabled(cl, s, a) && Agrees(cl, s, l.host, a, bdi)
    requires s.cmd == l.host.afu.cmd && s.cdata == l.host.afu.cmdData
    ensures CallsAllowed(l, Calls(cl, s, a, bdi))
    ensures Called(l, Calls(cl, s, a, bdi))
      == l.(host := OnLink(cl, s, l.host, a, bdi), payloads := l.payloads + DataOf(AcceptedIn(cl, s, a)))
  {
    CallsAreAllowed(cl, s, a, bdi, l);
    match a {
      case Respond(accept) => RespondCalls(cl, s, accept, bdi, l);
      case FinishPending(pick, posted, ok) => PostCalls(cl, s, pick, posted, ok, bdi, l);
      case Parse(pos) => ParseCalls(cl, s, pos, bdi, l);
      case CmdData => DataCalls(cl, s, bdi, l);
      case _ => assert l.payloads + [] == l.payloads;
    }
  }

  lemma OneCall(l: Link.State, c: Link.HostCall)
    requires CallsAllowed(l, [c])
    ensures Link.CallAllowed(l, c) && Called(l, [c]) == Link.HostStep(l, c)
  {
    assert [c][0] == c && [c][1..] == [];
    assert c in [c];
    hide Link.HostStep;
    assert Called(Link.HostStep(l, c), []) == Link.HostStep(l, c);
  }

  lemma RespondCalls(cl: nat, s: State, accept: bool, bdi: Byte, l: Link.State)
    requires var a := Respond(accept); Enabled(cl, s, a) && Agrees(cl, s, l.host, a, bdi)
    requires CallsAllowed(l, Calls(cl, s, Respond(accept), bdi))
    ensures Called(l, Calls(cl, s, Respond(accept), bdi)) == l.(
      host := OnLink(cl, s, l.host, Respond(accept), bdi),
      payloads := l.payloads + DataOf(AcceptedIn(cl, s, Respond(accept))))
  {
    assert l.payloads + [] == l.payloads;
    var i := First(s.list, ToRespond);
    if i < |s.list| {
      var p := NextPart(cl, s.list[i]);
      OneCall(l, Calls(cl, s, Respond(accept), bdi)[0]);
      hide NextPart, Called, CallsAllowed;
    }
  }

  lemma PostCalls(cl: nat, s: State, pick: Option<nat>, posted: Allow, ok: bool, bdi: Byte, l: Link.State)
    requires var a := FinishPending(pick, posted, ok); Enabled(cl, s, a) && Agrees(cl, s, l.host, a, bdi)
    requires CallsAllowed(l, Calls(cl, s, FinishPending(pick, posted, ok), bdi))
    ensures Called(l, Calls(cl, s, FinishPending(pick, posted, ok), bdi)) == l.(
      host := OnLink(cl, s, l.host, FinishPending(pick, posted, ok), bdi),
      payloads := l.payloads + DataOf(AcceptedIn(cl, s, FinishPending(pick, posted, ok))))
  {
    assert l.payloads + [] == l.payloads;
    if Posting(s, pick, posted).Some? {
      OneCall(l, Calls(cl, s, FinishPending(pick, posted, ok), bdi)[0]);
      hide Called, CallsAllowed;
    }
  }

  lemma ParseCalls(cl: nat, s: State, pos: nat, bdi: Byte, l: Link.State)
    requires pos <= |s.list| && s.cmd == l.host.afu.cmd && s.cdata == l.host.afu.cmdData
    requires CallsAllowed(l, Calls(cl, s, Parse(pos), bdi))
    ensures Called(l, Calls(cl, s, Parse(pos), bdi)) == l.(
      host := OnLink(cl, s, l.host, Parse(pos), bdi), payloads := l.payloads + DataOf(None))
  {
    assert l.payloads + [] == l.payloads;
    ParseClears(s, pos);
    hide HandleCmd;
    var t := HandleCmd(s, pos);
    var l1 := Link.HostStep(l, Link.CallReadCmdAndData);
    if s.cmd.Some? && t.cdata.Some? {
      var c := Link.CallRestoreCmdData(t.cdata.value);
      var calls := [Link.CallReadCmdAndData] + [c];
      assert calls[0] == Link.CallReadCmdAndData && calls[1..] == [c];
      OneCall(l1, c);
      assert Called(l, calls) == Called(l1, [c]);
    } else {
      assert [Link.CallReadCmdAndData] + [] == [Link.CallReadCmdAndData];
      OneCall(l, Link.CallReadCmdAndData);
    }
  }

  /** handle_cmd takes the staged command. */
  lemma ParseClears(s: State, pos: nat)
    requires pos <= |s.list|
    ensures HandleCmd(s, pos).cmd.None?
    ensures s.cmd.None? ==> HandleCmd(s, pos) == s
  {
    hide AddChecked, AddAmo, AddInterrupt, AddFail, AssignActag;
    if s.cmd.Some? && !HasTag(s.list, s.cmd.value.afutag) {
      var taken := s.(cmd := None, cdata := None);
      AddsKeepCmd(taken.(cdata := s.cdata), s.cmd.value, s.cdata, pos);
      AddsKeepCmd(taken, s.cmd.value, s.cdata, pos);
    }
  }

  lemma AddsKeepCmd(s: State, c: AfuCmd, beat: Option<LineBeat>, pos: nat)
    requires pos <= |s.list|
    ensures ParseCmd(s, c, beat, pos).cmd == s.cmd
  {
    hide DlToSize, PlToSize, HasTag, FindByActag, AlignmentOf, AddrOf, NewEvent, Fill, AmoBadSize, AssignActag;
  }

  lemma DataCalls(cl: nat, s: State, bdi: Byte, l: Link.State)
    requires Enabled(cl, s, CmdData) && s.cmd == l.host.afu.cmd && s.cdata == l.host.afu.cmdData
    requires CallsAllowed(l, Calls(cl, s, CmdData, bdi))
    ensures Called(l, Calls(cl, s, CmdData, bdi)) == l.(
      host := OnLink(cl, s, l.host, CmdData, bdi), payloads := l.payloads + DataOf(None))
  {
    assert l.payloads + DataOf(None) == l.payloads;
    hide OnLink, Calls, DataOf, Enabled, CallsAllowed;
    DataOnLink(cl, s, l.host, bdi);
    DataCallsAre(cl, s, bdi);
    if First(s.list, ToFill) < |s.list| {
      OneCall(l, Link.CallReadCmdData);
      hide Called;
    }
  }

  lemma DataOnLink(cl: nat, s: State, e: E.Event, bdi: Byte)
    requires Enabled(cl, s, CmdData) && s.cmd == e.afu.cmd && s.cdata == e.afu.cmdData
    ensures OnLink(cl, s, e, CmdData, bdi)
      == if First(s.list, ToFill) < |s.list| then e.(afu := e.afu.(cmdData := None)) else e
  {
    DataClears(s);
    hide HandleCmdData, CanFill, First;
  }

  lemma DataCallsAre(cl: nat, s: State, bdi: Byte)
    requires Enabled(cl, s, CmdData)
    ensures Calls(cl, s, CmdData, bdi) == if First(s.list, ToFill) < |s.list| then [Link.CallReadCmdData] else []
  {
  }

  /** handle_afu_tlx_cmd_data_read takes the staged beat when a write waits for one. */
  lemma DataClears(s: State)
    requires forall e :: e in s.list && Picks(ToFill, e) ==> CanFill(e)
    ensures HandleCmdData(s).cmd == s.cmd
    ensures HandleCmdData(s).cdata == if First(s.list, ToFill) < |s.list| then None else s.cdata
  {
    hide Gather;
  }

  // ---------- the joined system ----------

  /** Engine and link, and every message the link has accepted from the engine, in order. */
  datatype System = System(engine: State, link: Link.State, accepted: seq<Msg>)

  /** A handler of the engine, an application's answer or a new client; or anything else the link does: signalling,
      receiving, the AFU's edges, and the calls of the host request engine. */
  datatype Act = Handler(step: Step, bdi: Byte) | Wire(act: Link.Action)

  /** The calls only the command engine makes. */
  predicate EngineCall(c: Link.HostCall) {
    c.CallSendResp? || c.CallSendRespAndData? || c.CallReadCmdAndData? || c.CallReadCmdData? || c.CallRestoreCmdData?
  }

  predicate Possible(cl: nat, g: Link.Grants, x: System, act: Act) {
    match act
    case Handler(a, bdi) =>
      !x.link.host.clock && !a.Receive? && Enabled(cl, x.engine, a) && Agrees(cl, x.engine, x.link.host, a, bdi)
    case Wire(a) => Link.Enabled(g, x.link, a) && (a.Host? ==> !EngineCall(a.call))
  }

  /** A handler runs and makes its calls; what arrives on the link is staged for the engine. */
  function Move(cl: nat, g: Link.Grants, x: System, act: Act): System
    requires Possible(cl, g, x, act)
  {
    match act
    case Handler(a, bdi) =>
      CallsAreAllowed(cl, x.engine, a, bdi, x.link);
      System(Next(cl, x.engine, a), Called(x.link, Calls(cl, x.engine, a, bdi)),
             x.accepted + Opt(AcceptedIn(cl, x.engine, a)))
    case Wire(a) =>
      var l := Link.Step(g, x.link, a);
      System(x.engine.(cmd := l.host.afu.cmd, cdata := l.host.afu.cmdData), l, x.accepted)
  }

  function Start(maxClients: nat, g: Link.Grants, negedge: bool): System {
    System(Initial(maxClients), Link.Initial(g, negedge), [])
  }

  predicate SystemRun(cl: nat, g: Link.Grants, negedge: bool, maxClients: nat, xs: seq<System>, acts: seq<Act>) {
    && |xs| == |acts| + 1 && xs[0] == Start(maxClients, g, negedge)
    && forall i :: 0 <= i < |acts| ==> Possible(cl, g, xs[i], acts[i]) && xs[i + 1] == Move(cl, g, xs[i], acts[i])
  }

  // ---------- what every move keeps ----------

  /** h is a subsequence of s. */
  predicate Within(h: seq<Msg>, s: seq<Msg>) {
    h == [] || (s != [] && (
      (h[|h| - 1] == s[|s| - 1] && Within(h[..|h| - 1], s[..|s| - 1])) || Within(h, s[..|s| - 1])))
  }

  lemma WithinMore(h: seq<Msg>, s: seq<Msg>, m: Msg)
    requires Within(h, s)
    ensures Within(h, s + [m]) && Within(h + [m], s + [m])
  {
    assert (s + [m])[..|s|] == s && (h + [m])[..|h|] == h;
  }

  /** The messages in the histories of a list of commands. */
  function HistBag(evs: seq<Ev>): multiset<Msg> {
    if evs == [] then multiset{} else HistBag(evs[..|evs| - 1]) + multiset(evs[|evs| - 1].hist)
  }

  lemma {:induction false} HistBagConcat(a: seq<Ev>, b: seq<Ev>)
    ensures HistBag(a + b) == HistBag(a) + HistBag(b)
  {
    if b == [] {
      assert a + b == a;
    } else {
      HistBagConcat(a, b[..|b| - 1]);
      assert (a + b)[..|a + b| - 1] == a + b[..|b| - 1];
    }
  }

  lemma HistBagOne(e: Ev)
    ensures HistBag([e]) == multiset(e.hist)
  {
    assert [e][..0] == [];
  }

  lemma SeqSplit<T>(s: seq<T>, i: nat)
    requires i < |s|
    ensures s == s[..i] + [s[i]] + s[i + 1..]
  {
  }

  lemma HistBagSplit(list: seq<Ev>, i: nat)
    requires i < |list|
    ensures HistBag(list) == HistBag(list[..i]) + multiset(list[i].hist) + HistBag(list[i + 1..])
  {
    hide *;
    var a, e, b := list[..i], list[i], list[i + 1..];
    HistBagConcat(a + [e], b);
    HistBagConcat(a, [e]);
    HistBagOne(e);
    SeqSplit(list, i);
  }

  /** Every history is a subsequence of what the link accepted, and together they are all of it. */
  ghost predicate Accounted(s: State, accepted: seq<Msg>) {
    && (forall e :: e in s.list || e in s.retired ==> Within(e.hist, accepted))
    && HistBag(s.list) + HistBag(s.retired) == multiset(accepted)
  }

  lemma ChangeAccounted(s: State, t: State, c: Change, m: Option<Msg>, accepted: seq<Msg>)
    requires Accounted(s, accepted) && Makes(s, t, c, m)
    ensures Accounted(t, accepted + Opt(m))
  {
    ChangeWithin(s, t, c, m, accepted);
    ChangeBag(s, t, c, m);
    assert multiset(accepted + Opt(m)) == multiset(accepted) + multiset(Opt(m));
    hide Makes, Within;
  }

  lemma ChangeWithin(s: State, t: State, c: Change, m: Option<Msg>, accepted: seq<Msg>)
    requires (forall e :: e in s.list || e in s.retired ==> Within(e.hist, accepted)) && Makes(s, t, c, m)
    ensures forall e :: e in t.list || e in t.retired ==> Within(e.hist, accepted + Opt(m))
  {
    hide Evolves, Within;
    forall e | e in t.list || e in t.retired ensures Within(e.hist, accepted + Opt(m)) {
      ChangeSource(s, t, c, m, e);
      hide Makes;
      if e in s.list || e in s.retired {
        WithinGrows(e.hist, accepted, m);
      } else if e.hist == [] {
        WithinNothing(accepted + Opt(m));
      } else {
        var i :| 0 <= i < |s.list| && e.hist == s.list[i].hist + Opt(m);
        WithinGrows(s.list[i].hist, accepted, m);
      }
    }
  }

  /** Where a command of the next state has its history from. */
  lemma ChangeSource(s: State, t: State, c: Change, m: Option<Msg>, e: Ev)
    requires Makes(s, t, c, m) && (e in t.list || e in t.retired)
    ensures e in s.list || e in s.retired || e.hist == []
      || exists i :: 0 <= i < |s.list| && e.hist == s.list[i].hist + Opt(m)
  {
    hide Evolves;
  }

  lemma WithinGrows(h: seq<Msg>, s: seq<Msg>, m: Option<Msg>)
    requires Within(h, s)
    ensures Within(h, s + Opt(m)) && Within(h + Opt(m), s + Opt(m))
  {
    if m.Some? {
      WithinMore(h, s, m.value);
    } else {
      assert s + [] == s && h + [] == h;
    }
  }

  lemma WithinNothing(s: seq<Msg>)
    ensures Within([], s)
  {
  }

  lemma ReplacedBag(list: seq<Ev>, i: nat, e: Ev, more: seq<Msg>)
    requires i < |list| && e.hist == list[i].hist + more
    ensures HistBag(list[i := e]) == HistBag(list) + multiset(more)
  {
    HistBagSplit(list, i);
    HistBagSplit(list[i := e], i);
    hide HistBag;
    assert list[i := e][..i] == list[..i] && list[i := e][i + 1..] == list[i + 1..];
  }

  lemma RemovedBag(list: seq<Ev>, i: nat)
    requires i < |list|
    ensures HistBag(Remove(list, i)) + multiset(list[i].hist) == HistBag(list)
  {
    HistBagSplit(list, i);
    HistBagConcat(list[..i], list[i + 1..]);
    hide HistBag;
  }

  lemma InsertedBag(list: seq<Ev>, pos: nat, e: Ev)
    requires pos <= |list|
    ensures HistBag(Insert(list, pos, e)) == HistBag(list) + multiset(e.hist)
  {
    hide HistBag;
    HistBagConcat(list[..pos], list[pos..]);
    HistBagConcat(list[..pos] + [e], list[pos..]);
    HistBagConcat(list[..pos], [e]);
    HistBagOne(e);
    assert list == list[..pos] + list[pos..];
  }

  lemma ChangeBag(s: State, t: State, c: Change, m: Option<Msg>)
    requires Makes(s, t, c, m)
    ensures HistBag(t.list) + HistBag(t.retired) == HistBag(s.list) + HistBag(s.retired) + multiset(Opt(m))
  {
    hide Evolves, HistBag, Insert, Remove;
    match c
    case Same =>
    case Replaced(i, e) => ReplacedBag(s.list, i, e, Opt(m));
    case Removed(i, e) =>
      RemovedBag(s.list, i);
      HistBagConcat(s.retired, [e]);
      HistBagOne(e);
    case Inserted(pos, e) => InsertedBag(s.list, pos, e);
  }

  /** Engine and link have the same command and beat staged, and the link's payload stream is the data of the messages
      it accepted. */
  predicate Joined(x: System) {
    && x.engine.cmd == x.link.host.afu.cmd && x.engine.cdata == x.link.host.afu.cmdData
    && x.link.payloads == Payloads(x.accepted)
  }

  ghost predicate SystemInv(cl: nat, g: Link.Grants, x: System) {
    ValidCl(cl) && Inv(cl, x.engine) && Link.Inv(g, x.link) && Joined(x) && Accounted(x.engine, x.accepted)
  }

  lemma PayloadsMore(accepted: seq<Msg>, m: Option<Msg>)
    ensures Payloads(accepted + Opt(m)) == Payloads(accepted) + DataOf(m)
  {
    if m.Some? {
      assert (accepted + [m.value])[..|accepted|] == accepted;
    } else {
      assert accepted + [] == accepted;
    }
  }

  lemma {:induction false} CalledInv(g: Link.Grants, l: Link.State, calls: seq<Link.HostCall>)
    requires Link.Inv(g, l) && !l.host.clock && CallsAllowed(l, calls)
    ensures Link.Inv(g, Called(l, calls))
    decreases |calls|
  {
    if calls != [] {
      var c := calls[0];
      assert c in calls && Link.CallAllowed(l, c);
      LinkInvariant.HostStepInv(g, l, c);
      HostKeepsClock(l, c);
      hide Link.Inv, Link.HostStep;
      assert CallsAllowed(Link.HostStep(l, c), calls[1..]) by {
        forall k | k in calls[1..] ensures k in calls {
        }
      }
      CalledInv(g, Link.HostStep(l, c), calls[1..]);
    }
  }

  lemma HostKeepsClock(l: Link.State, c: Link.HostCall)
    requires Link.CallAllowed(l, c)
    ensures Link.HostStep(l, c).host.clock == l.host.clock
  {
    hide DlToSize, E.RespSlice;
    match c
    case CallSendResp(_) =>
    case CallSendRespAndData(_, _, _) =>
    case CallSendCmd(_, _) =>
    case CallSendCfg(_, _) =>
    case _ =>
  }

  /** Nothing but a handler and a reception changes what is staged for the engine, and only the engine's calls add to
      the payloads. */
  lemma WireKeeps(g: Link.Grants, l: Link.State, a: Link.Action)
    requires Link.Enabled(g, l, a) && (a.Host? ==> !EngineCall(a.call))
    ensures Link.Step(g, l, a).payloads == l.payloads
  {
    match a {
      case AfuDrive(p) => DriveKeeps(g, l, p);
      case _ =>
    }
  }

  lemma DriveKeeps(g: Link.Grants, l: Link.State, p: Link.Pins)
    requires Link.AfuBehaves(l, p)
    ensures Link.DriveStep(g, l, p).payloads == l.payloads
  {
    Link.RequestedLines(g, l, p);
    Link.DriveInInputsOnly(g, l, p);
    LinkInvariant.DriveStepIs(g, l, p);
    EndKeeps(Link.DriveIn(g, l, p), Link.Requested(p));
    hide Link.DriveIn, Link.DriveStep, Link.DriveEnd, Link.CatchResp, Link.Requested;
  }

  lemma EndKeeps(d: Link.State, n: nat)
    requires Link.DataFits(d.afu.host) && d.rdCnt + n <= |Link.CatchResp(d).fifo|
    ensures Link.DriveEnd(d, n).payloads == d.payloads
  {
    hide Link.Lines, Link.DataFits;
  }

  lemma HandlerInv(cl: nat, g: Link.Grants, x: System, a: Step, bdi: Byte)
    requires SystemInv(cl, g, x) && Possible(cl, g, x, Handler(a, bdi))
    ensures SystemInv(cl, g, Move(cl, g, x, Handler(a, bdi)))
  {
    NextInv(cl, x.engine, a);
    CallsOnLink(cl, x.engine, a, bdi, x.link);
    CalledInv(g, x.link, Calls(cl, x.engine, a, bdi));
    PayloadsMore(x.accepted, AcceptedIn(cl, x.engine, a));
    var c := StepChanges(cl, x.engine, a);
    ChangeAccounted(x.engine, Next(cl, x.engine, a), c, AcceptedIn(cl, x.engine, a), x.accepted);
    StagedTogether(cl, x.engine, x.link.host, a, bdi);
    hide Inv, Link.Inv, Accounted, Enabled, Next, AcceptedIn, OnLink, Calls, Called, Agrees, Payloads, DataOf, Makes;
  }

  /** After a handler the engine and the link still agree on what is staged. */
  lemma StagedTogether(cl: nat, s: State, e: E.Event, a: Step, bdi: Byte)
    requires Enabled(cl, s, a) && !a.Receive? && s.cmd == e.afu.cmd && s.cdata == e.afu.cmdData
    ensures var t, f := Next(cl, s, a), OnLink(cl, s, e, a, bdi); t.cmd == f.afu.cmd && t.cdata == f.afu.cmdData
  {
    hide HandleCmd, HandleCmdData, Answer, Finish, MemReturn, OpReqOf, NoticeBytes, WrittenBytes, PostedFor;
    match a
    case Respond(_) => OfferKeepsStaged(cl, s, e, bdi);
    case _ =>
  }

  lemma OfferKeepsStaged(cl: nat, s: State, e: E.Event, bdi: Byte)
    requires CanRespond(cl, s)
    ensures Offered(cl, s, e, bdi).1.afu == e.afu
  {
    hide DlToSize, NextPart, E.RespSlice;
  }

  lemma WireInv(cl: nat, g: Link.Grants, x: System, a: Link.Action)
    requires SystemInv(cl, g, x) && Possible(cl, g, x, Wire(a))
    ensures SystemInv(cl, g, Move(cl, g, x, Wire(a)))
  {
    LinkInvariant.StepInv(g, x.link, a);
    WireKeeps(g, x.link, a);
    hide Link.Step, Link.Enabled, Link.Inv, Payloads, Inv, HistBag, Within;
    var l := Link.Step(g, x.link, a);
    var t := x.engine.(cmd := l.host.afu.cmd, cdata := l.host.afu.cmdData);
    SameClients(t);
    SameList(cl, x.engine, t);
    assert Accounted(t, x.accepted);
  }

  lemma SameClients(s: State)
    ensures forall c :: 0 <= c < |s.clients| ==> SameAccess(s.clients[c], s.clients[c])
  {
  }

  lemma StartInv(cl: nat, g: Link.Grants, negedge: bool, maxClients: nat)
    requires ValidCl(cl)
    ensures SystemInv(cl, g, Start(maxClients, g, negedge))
  {
    InitialInv(cl, maxClients);
    LinkInvariant.InitialInv(g, negedge);
    hide Inv, Link.Inv;
  }

  lemma {:induction false} SystemRunInv(cl: nat, g: Link.Grants, negedge: bool, maxClients: nat, xs: seq<System>,
      acts: seq<Act>, n: nat)
    requires ValidCl(cl) && SystemRun(cl, g, negedge, maxClients, xs, acts) && n < |xs|
    ensures SystemInv(cl, g, xs[n])
  {
    hide SystemInv, Possible, Move;
    if n == 0 {
      StartInv(cl, g, negedge, maxClients);
    } else {
      SystemRunInv(cl, g, negedge, maxClients, xs, acts, n - 1);
      match acts[n - 1]
      case Handler(a, bdi) => HandlerInv(cl, g, xs[n - 1], a, bdi);
      case Wire(a) => WireInv(cl, g, xs[n - 1], a);
    }
  }

  // ---------- the engine's theorems in the joined system ----------

  /** The engine's step in a move: what is staged by the link is received. */
  function EngineStep(cl: nat, g: Link.Grants, x: System, act: Act): Step
    requires Possible(cl, g, x, act)
  {
    match act
    case Handler(a, _) => a
    case Wire(_) => var y := Move(cl, g, x, act); Receive(y.engine.cmd, y.engine.cdata)
  }

  function EngineSteps(cl: nat, g: Link.Grants, xs: seq<System>, acts: seq<Act>): (steps: seq<Step>)
    requires |xs| == |acts| + 1 && forall i :: 0 <= i < |acts| ==> Possible(cl, g, xs[i], acts[i])
    ensures |steps| == |acts|
    ensures forall i :: 0 <= i < |acts| ==> steps[i] == EngineStep(cl, g, xs[i], acts[i])
  {
    seq(|acts|, i requires 0 <= i < |acts| => EngineStep(cl, g, xs[i], acts[i]))
  }

  function Engines(xs: seq<System>): (states: seq<State>)
    ensures |states| == |xs| && forall i :: 0 <= i < |xs| ==> states[i] == xs[i].engine
  {
    seq(|xs|, i requires 0 <= i < |xs| => xs[i].engine)
  }

  lemma MoveIsStep(cl: nat, g: Link.Grants, x: System, act: Act)
    requires Possible(cl, g, x, act)
    ensures var a := EngineStep(cl, g, x, act);
      Enabled(cl, x.engine, a) && Move(cl, g, x, act).engine == Next(cl, x.engine, a)
  {
    hide Link.Step, Link.Enabled, Agrees, HandleCmd;
    match act
    case Handler(_, _) => hide Enabled, Next;
    case Wire(_) =>
  }

  /** A run of the joined system is, for the engine, a run of its own: every theorem about those holds in it. */
  lemma EngineRun(cl: nat, g: Link.Grants, negedge: bool, maxClients: nat, xs: seq<System>, acts: seq<Act>)
    requires SystemRun(cl, g, negedge, maxClients, xs, acts)
    ensures Run(cl, maxClients, Engines(xs), EngineSteps(cl, g, xs, acts))
  {
    var states, steps := Engines(xs), EngineSteps(cl, g, xs, acts);
    forall i | 0 <= i < |steps|
      ensures Enabled(cl, states[i], steps[i]) && states[i + 1] == Next(cl, states[i], steps[i])
    {
      MoveIsStep(cl, g, xs[i], acts[i]);
      hide Possible, Move, Enabled, Next, EngineStep;
    }
    hide Possible, Move, Enabled, Next, EngineStep;
  }

  /** In the first n moves no interrupt with data is accepted with a pl that stands for no size. */
  predicate NoneTooLong(xs: seq<System>, acts: seq<Act>, n: nat)
    requires n <= |acts| < |xs|
  {
    forall k :: 0 <= k < n && acts[k].Handler? && acts[k].step.Parse? ==> !TooLong(xs[k].engine)
  }

  /** What the environment owes a handler step: an application answers with the bytes asked for, a list position and a
      pick exist, and a client attaches to an empty slot. */
  predicate Owed(s: State, a: Step) {
    && (a.ClientAnswer? ==>
          a.context < |s.clients| && s.clients[a.context].Some? && BytesAsked(s, a.context, a.bytes))
    && (a.Parse? ==> a.pos <= |s.list|)
    && (a.FinishPending? ==> Pickable(s, a.pick))
    && (a.Attach? ==> a.slot < |s.clients| && s.clients[a.slot].None?)
  }

  /** In every run of the joined system in which no accepted interrupt is too long every handler that comes next stays
      inside its buffers: whenever ocse holds the clock, it is possible as soon as its outcome is the link's. */
  lemma SystemInBounds(cl: nat, g: Link.Grants, negedge: bool, maxClients: nat, xs: seq<System>, acts: seq<Act>, n: nat,
      a: Step, bdi: Byte)
    requires ValidCl(cl) && SystemRun(cl, g, negedge, maxClients, xs, acts) && n <= |acts| && NoneTooLong(xs, acts, n)
    requires !a.Receive? && Owed(xs[n].engine, a)
    ensures Enabled(cl, xs[n].engine, a)
    ensures !xs[n].link.host.clock && Agrees(cl, xs[n].engine, xs[n].link.host, a, bdi)
      ==> Possible(cl, g, xs[n], Handler(a, bdi))
  {
    EngineRun(cl, g, negedge, maxClients, xs, acts);
    var states, steps := Engines(xs), EngineSteps(cl, g, xs, acts);
    forall k | 0 <= k < n && steps[k].Parse? ensures !TooLong(states[k]) {
      assert steps[k] == EngineStep(cl, g, xs[k], acts[k]);
      hide TooLong, Move, Possible, SystemRun, Run;
    }
    hide TooLong, Move, SystemRun, Run, Enabled, Agrees;
    NeverOutOfBounds(cl, maxClients, states, steps, n, a);
  }

  /** End to end, in every state of every run of engine, link and AFU together: the lines driven to the AFU are a
      prefix of the data of the messages accepted, in order, and the rest is in flight; the histories of the commands
      are subsequences of those messages and account for all of them. */
  lemma EndToEnd(cl: nat, g: Link.Grants, negedge: bool, maxClients: nat, xs: seq<System>, acts: seq<Act>, n: nat)
    requires ValidCl(cl) && SystemRun(cl, g, negedge, maxClients, xs, acts) && n < |xs|
    ensures var x := xs[n];
      && Flatten(x.link.popped) <= Payloads(x.accepted)
      && Payloads(x.accepted)[|Flatten(x.link.popped)|..] == Link.DataInFlight(x.link)
      && HistBag(x.engine.list) + HistBag(x.engine.retired) == multiset(x.accepted)
    ensures forall e :: e in xs[n].engine.list || e in xs[n].engine.retired ==> Within(e.hist, xs[n].accepted)
  {
    SystemRunInv(cl, g, negedge, maxClients, xs, acts, n);
    assert Link.DataInOrder(xs[n].link);
    hide SystemRun, Link.DataInFlight, Payloads, Within, HistBag;
  }

  /** A full read that has been answered, whole or in parts whose dp was kept, put into those messages exactly the bytes
      its application returned, each under READ_RESP, code 0 and its own tag. */
  lemma ReadEndToEnd(cl: nat, g: Link.Grants, negedge: bool, maxClients: nat, xs: seq<System>, acts: seq<Act>, n: nat,
      i: nat)
    requires ValidCl(cl) && SystemRun(cl, g, negedge, maxClients, xs, acts) && n < |xs| && i < |xs[n].engine.retired|
    requires var e := xs[n].engine.retired[i]; e.typ == CmdRead && IsRead(e.command) && DpKept(cl, e)
    ensures var e := xs[n].engine.retired[i];
      && Within(e.hist, xs[n].accepted)
      && Payloads(e.hist) == e.returned && |e.returned| == e.size
      && forall m :: m in e.hist ==> m.r.opcode == READ_RESP && m.r.code == 0 && m.r.afutag == e.afutag
  {
    var e := xs[n].engine.retired[i];
    SystemRunInv(cl, g, negedge, maxClients, xs, acts, n);
    EngineRun(cl, g, negedge, maxClients, xs, acts);
    var states, steps := Engines(xs), EngineSteps(cl, g, xs, acts);
    ReadReturned(cl, maxClients, states, steps, n, i);
    RunCodes(cl, maxClients, states, steps, n);
    assert Coded(e) && Complete(cl, e);
    hide SystemRun, Run, Within, Payloads, DpKept, Inv, Link.Inv, HistBag;
    ReadAnswers(cl, e);
  }

  lemma ReadAnswers(cl: nat, e: Ev)
    requires ValidCl(cl) && Complete(cl, e) && Coded(e) && e.typ == CmdRead && IsRead(e.command)
    ensures forall m :: m in e.hist ==> m.r.opcode == READ_RESP && m.r.code == 0 && m.r.afutag == e.afutag
  {
    assert e.respOpcode == READ_RESP;
    hide Coded;
  }
}
