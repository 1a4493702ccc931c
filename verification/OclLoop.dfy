/** _handle_afu of ocse/ocl.c: the handlers of the command engine in the order the loop calls them, and what the link
    answers on the way. */
module OclLoop {
  import opened Common
  import opened TlxPacket
  import E = TlxEvent
  import opened CmdEngine
  import opened CmdInvariant
  import opened CmdTheorems
  import opened CmdBounds
  import opened CmdLink
  import CmdAssembly
  import CmdHandlers

  /** What the allow_* calls of one pass answer. */
  datatype Parms = Parms(
    read: Allow, reorder: seq<bool>, posted: Allow, pos: nat, write: Allow, intr: Allow, op: Allow, bdi: Byte)

  function Clip(pos: nat, n: nat): (p: nat)
    ensures p <= n
  {
    if pos <= n then pos else n
  }

  /** allow_reorder at each of n cells; false once the answers run out. */
  function Reorder(answers: seq<bool>, n: nat): (r: seq<bool>)
    ensures |r| == n
  {
    seq(n, i requires i >= 0 => i < |answers| && answers[i])
  }

  // ---------- the link through a pass ----------

  /** The link's event after a handler step of a pass. */
  function After(cl: nat, s: State, e: E.Event, a: Step, bdi: Byte): E.Event {
    if Enabled(cl, s, a) then OnLink(cl, s, e, a, bdi) else e
  }

  predicate AgreesAt(cl: nat, s: State, e: E.Event, a: Step, bdi: Byte) {
    Enabled(cl, s, a) ==> Agrees(cl, s, e, a, bdi)
  }

  function Finishing(s: State, n: CmdAssembly.Input): Step {
    FinishPending(if Pickable(s, Some(n.pick)) then Some(n.pick) else None, n.posted, n.ok)
  }

  /** Every outcome of a pass: what the link answers, given its event, and where the scans stop, given the allow_*
      answers. */
  function Outcomes(cl: nat, s: State, e: E.Event, p: Parms): CmdAssembly.Input
    requires ValidCl(cl)
  {
    var (rc, e1) := if CanRespond(cl, s) then Offered(cl, s, e, p.bdi) else (None, e);
    var accept := rc == Some(E.Success);
    var s2 := CmdAssembly.Take(cl, CmdAssembly.Take(cl, s, Respond(accept)), BufferWrite(p.read));
    var pick := PickOf(s2.list, Reorder(p.reorder, |s2.list|));
    var ok := OfferedPosted(s2, e1, pick, p.posted).0 == Some(E.Success);
    var s3 := CmdAssembly.Take(cl, s2, FinishPending(pick, p.posted, ok));
    CmdAssembly.Input(s.cmd, s.cdata, accept, p.read, if pick.Some? then pick.value else |s2.list|, p.posted, ok,
                      Clip(p.pos, |s3.list|), p.write, p.intr, p.op)
  }

  /** The link's event after handle_response, handle_buffer_write and handle_xlate_intrp_pending_sent, and whether the
      outcomes recorded in n are the ones it gave them. */
  function EventBefore(cl: nat, s: State, e: E.Event, n: CmdAssembly.Input, bdi: Byte): (E.Event, bool)
    requires ValidCl(cl)
  {
    var s0 := CmdAssembly.Take(cl, s, Receive(n.cmd, n.cdata));
    var s2 := CmdAssembly.Take(cl, CmdAssembly.Take(cl, s0, Respond(n.accept)), BufferWrite(n.read));
    var e1 := After(cl, s0, e, Respond(n.accept), bdi);
    (After(cl, s2, e1, Finishing(s2, n), bdi),
     AgreesAt(cl, s0, e, Respond(n.accept), bdi) && AgreesAt(cl, s2, e1, Finishing(s2, n), bdi))
  }

  /** The whole pass: handle_cmd and handle_afu_tlx_cmd_data_read take what is staged, the rest asks nothing. */
  function EventPass(cl: nat, s: State, e: E.Event, n: CmdAssembly.Input, bdi: Byte): (E.Event, bool)
    requires ValidCl(cl)
  {
    var b, d := CmdAssembly.Before(cl, s, n), CmdAssembly.AtData(cl, s, n);
    var (e3, agrees) := EventBefore(cl, s, e, n, bdi);
    (After(cl, d, After(cl, b, e3, Parse(Clip(n.pos, |b.list|)), bdi), CmdData, bdi), agrees)
  }

  // ---------- the handlers called are the steps of the pass ----------

  lemma TakeIs(cl: nat, s: State, a: Step)
    requires ValidCl(cl) && Inv(cl, s) && (a.Interrupt? ==> NoticesFit(s.list))
    requires !a.ClientAnswer? && !a.Attach? && (a.Parse? ==> a.pos <= |s.list|)
      && (a.FinishPending? ==> Pickable(s, a.pick))
    ensures Enabled(cl, s, a) && CmdAssembly.Take(cl, s, a) == Next(cl, s, a)
  {
    HandlersDefined(cl, s, a);
  }

  lemma BeforeIs(cl: nat, s: State, n: CmdAssembly.Input, s1: State, s2: State, s3: State, pick: Option<nat>,
      e: E.Event, e1: E.Event, e2: E.Event, bdi: Byte)
    requires ValidCl(cl) && Inv(cl, s) && n.cmd == s.cmd && n.cdata == s.cdata
    requires CanRespond(cl, s) && s1 == HandleResponse(cl, s, n.accept) && s2 == HandleBufferWrite(s1, n.read)
    requires Pickable(s2, pick) && n.pick == (if pick.Some? then pick.value else |s2.list|)
    requires s3 == HandlePendingSent(s2, pick, n.posted, n.ok)
    requires var (rc, after) := Offered(cl, s, e, bdi); n.accept == (rc == Some(E.Success)) && after == e1
    requires var (rc, after) := OfferedPosted(s2, e1, pick, n.posted); n.ok == (rc == Some(E.Success)) && after == e2
    ensures s3 == CmdAssembly.Before(cl, s, n) && Inv(cl, s3) && EventBefore(cl, s, e, n, bdi) == (e2, true)
  {
    ResponseInv(cl, s, n.accept);
    BufferWriteInv(cl, s1, n.read);
    PendingSentInv(cl, s2, pick, n.posted, n.ok);
    hide Inv, HandleResponse, HandleBufferWrite, HandlePendingSent, CmdAssembly.Take, Offered, OfferedPosted;
    assert s.(cmd := s.cmd, cdata := s.cdata) == s;
    TakeIs(cl, s, Receive(n.cmd, n.cdata));
    TakeIs(cl, s, Respond(n.accept));
    TakeIs(cl, s1, BufferWrite(n.read));
    TakeIs(cl, s2, FinishPending(pick, n.posted, n.ok));
    assert pick == if Pickable(s2, Some(n.pick)) then Some(n.pick) else None;
    assert After(cl, s, e, Respond(n.accept), bdi) == e1 && AgreesAt(cl, s, e, Respond(n.accept), bdi);
    var f := FinishPending(pick, n.posted, n.ok);
    assert After(cl, s2, e1, f, bdi) == e2 && AgreesAt(cl, s2, e1, f, bdi);
    hide Enabled, Next, Agrees, OnLink, After, AgreesAt, CanRespond, Pickable;
  }

  lemma PassIs(cl: nat, s: State, n: CmdAssembly.Input, s3: State, s4: State, s5: State, s6: State, s7: State)
    requires ValidCl(cl) && s3 == CmdAssembly.Before(cl, s, n) && Inv(cl, s3)
    requires n.pos <= |s3.list| && s4 == HandleCmd(s3, n.pos)
    requires (forall e :: e in s4.list && Picks(ToFill, e) ==> CanFill(e)) && s5 == HandleCmdData(s4)
    requires (forall e :: e in s5.list && Picks(ToWrite, e) ==> CanWrite(e)) && s6 == HandleWriteCmd(s5, n.write)
    requires NoticesFit(s6.list) && CanInterrupt(s6, n.intr) && s7 == HandleInterrupt(s6, n.intr)
    requires forall e :: e in s7.list && Picks(ToOperate, e) ==> CanOperate(e)
    ensures HandleOperate(s7, n.op) == CmdAssembly.Pass(cl, s, n) && s4 == CmdAssembly.AtData(cl, s, n)
  {
    CmdInv(cl, s3, n.pos);
    CmdDataInv(cl, s4);
    WriteCmdInv(cl, s5, n.write);
    InterruptInv(cl, s6, n.intr);
    hide Inv, HandleCmd, HandleCmdData, HandleWriteCmd, HandleInterrupt, HandleOperate, CmdAssembly.Take,
      CmdAssembly.Before, CanFill, CanWrite, CanOperate, CanInterrupt, NoticesFit;
    TakeIs(cl, s3, Parse(n.pos));
    TakeIs(cl, s4, CmdData);
    TakeIs(cl, s5, WriteCmd(n.write));
    TakeIs(cl, s6, Interrupt(n.intr));
    TakeIs(cl, s7, Operate(n.op));
  }

  /** What is staged is taken exactly as the pass says. */
  lemma LinkPassIs(cl: nat, s: State, n: CmdAssembly.Input, s3: State, s4: State, e: E.Event, e3: E.Event, e4: E.Event,
      e5: E.Event, bdi: Byte)
    requires ValidCl(cl) && s3 == CmdAssembly.Before(cl, s, n) && s4 == CmdAssembly.AtData(cl, s, n)
    requires EventBefore(cl, s, e, n, bdi) == (e3, true) && n.pos <= |s3.list| && s4 == HandleCmd(s3, n.pos)
    requires (forall k :: k in s4.list && Picks(ToFill, k) ==> CanFill(k))
    requires CmdHandlers.Staged(e3, s4, e4) && CmdHandlers.Staged(e4, HandleCmdData(s4), e5)
    ensures EventPass(cl, s, e, n, bdi) == (e5, true)
  {
    hide EventBefore, HandleCmd, HandleCmdData, CmdAssembly.Before, CmdAssembly.AtData, CanFill;
    assert e4 == After(cl, s3, e3, Parse(Clip(n.pos, |s3.list|)), bdi);
    assert e5 == After(cl, s4, e4, CmdData, bdi);
  }

  lemma FitsAfter(cl: nat, s: State, a: Step)
    requires ValidCl(cl) && Inv(cl, s) && NoticesFit(s.list) && Enabled(cl, s, a) && !a.Parse?
    ensures NoticesFit(Next(cl, s, a).list)
  {
    StepFits(cl, s, a);
  }

  /** Every interrupt waiting fits its message, and when handle_cmd is reached it is not about to accept one that does
      not. */
  predicate InterruptsFit(cl: nat, s: State, e: E.Event, p: Parms)
    requires ValidCl(cl)
  {
    NoticesFit(s.list) && !TooLong(CmdAssembly.Before(cl, s, Outcomes(cl, s, e, p)))
  }

  /** By the time handle_interrupt is called, every interrupt waiting still fits its message. */
  lemma FitsToInterrupt(cl: nat, s3: State, n: CmdAssembly.Input, s4: State, s5: State, s6: State)
    requires ValidCl(cl) && Inv(cl, s3) && NoticesFit(s3.list) && !TooLong(s3)
    requires n.pos <= |s3.list| && s4 == HandleCmd(s3, n.pos)
    requires (forall e :: e in s4.list && Picks(ToFill, e) ==> CanFill(e)) && s5 == HandleCmdData(s4)
    requires (forall e :: e in s5.list && Picks(ToWrite, e) ==> CanWrite(e)) && s6 == HandleWriteCmd(s5, n.write)
    ensures NoticesFit(s6.list) && CanInterrupt(s6, n.intr)
  {
    AcceptedFits(s3, n.pos);
    CmdInv(cl, s3, n.pos);
    CmdDataInv(cl, s4);
    WriteCmdInv(cl, s5, n.write);
    hide Inv, HandleCmd, HandleCmdData, HandleWriteCmd, CanFill, CanWrite, NoticesFit, TooLong, CanInterrupt;
    FitsAfter(cl, s4, CmdData);
    FitsAfter(cl, s5, WriteCmd(n.write));
    HandlersDefined(cl, s6, Interrupt(n.intr));
  }

  lemma FitsToEnd(cl: nat, s6: State, n: CmdAssembly.Input, s7: State)
    requires ValidCl(cl) && Inv(cl, s6) && NoticesFit(s6.list) && CanInterrupt(s6, n.intr)
    requires s7 == HandleInterrupt(s6, n.intr) && forall e :: e in s7.list && Picks(ToOperate, e) ==> CanOperate(e)
    ensures NoticesFit(HandleOperate(s7, n.op).list)
  {
    InterruptInv(cl, s6, n.intr);
    hide Inv, HandleInterrupt, HandleOperate, NoticesFit, CanInterrupt, CanOperate;
    FitsAfter(cl, s6, Interrupt(n.intr));
    FitsAfter(cl, s7, Operate(n.op));
  }

  lemma Engine(cmd: CmdHandlers.Cmd)
    requires cmd.Valid()
    ensures cmd.Pointers() && ValidCl(cmd.hostClSize) && Inv(cmd.hostClSize, cmd.View())
      && |cmd.View().list| == |cmd.list|
  {
  }

  /** What handle_response did is what the link model has it offer. */
  lemma TriedIs(cl: nat, s: State, e: E.Event, bdi: Byte, rc: Option<E.Rc>, e1: E.Event)
    requires CanRespond(cl, s) && CmdHandlers.AnswerTried(cl, s, e, bdi, rc, e1)
    ensures Offered(cl, s, e, bdi) == (rc, e1)
  {
    hide SendMsg, NextPart;
  }

  lemma PostedIs(s: State, e: E.Event, pick: Option<nat>, a: Allow, rc: Option<E.Rc>, e1: E.Event)
    requires Pickable(s, pick)
    requires pick.None? || (!a.retry && a.failed) ==> rc.None? && e1 == e
    requires pick.Some? && (a.retry || !a.failed) ==>
      rc.Some? && (rc.value, e1) == E.SendResp(e, PostedFor(s.list[pick.value].(resp := if a.retry then 0x02 else 0)).r)
    ensures OfferedPosted(s, e, pick, a) == (rc, e1)
  {
    hide E.SendResp, PostedFor;
  }

  lemma OutcomesAre(cl: nat, s: State, p: Parms, s1: State, s2: State, s3: State, pick: Option<nat>, e: E.Event,
      rc: Option<E.Rc>, e1: E.Event, rc2: Option<E.Rc>)
    requires ValidCl(cl) && Inv(cl, s) && CanRespond(cl, s) && Offered(cl, s, e, p.bdi) == (rc, e1)
    requires s1 == HandleResponse(cl, s, rc == Some(E.Success)) && s2 == HandleBufferWrite(s1, p.read)
    requires pick == PickOf(s2.list, Reorder(p.reorder, |s2.list|))
    requires OfferedPosted(s2, e1, pick, p.posted).0 == rc2
    requires s3 == HandlePendingSent(s2, pick, p.posted, rc2 == Some(E.Success))
    ensures Outcomes(cl, s, e, p) == CmdAssembly.Input(s.cmd, s.cdata, rc == Some(E.Success), p.read,
      if pick.Some? then pick.value else |s2.list|, p.posted, rc2 == Some(E.Success), Clip(p.pos, |s3.list|), p.write,
      p.intr, p.op)
  {
    var accept, ok := rc == Some(E.Success), rc2 == Some(E.Success);
    ResponseInv(cl, s, accept);
    BufferWriteInv(cl, s1, p.read);
    hide Inv, HandleResponse, HandleBufferWrite, HandlePendingSent, CmdAssembly.Take, Offered, OfferedPosted,
      CanRespond;
    TakeIs(cl, s, Respond(accept));
    TakeIs(cl, s1, BufferWrite(p.read));
    TakeIs(cl, s2, FinishPending(pick, p.posted, ok));
  }

  /** handle_response to handle_xlate_intrp_pending_sent. */
  method AnswerHalf(cmd: CmdHandlers.Cmd, p: Parms)
    requires cmd.Valid() && NoticesFit(cmd.View().list)
    modifies cmd`list, cmd`retired, cmd`asked, cmd.Events(), cmd.Clients(), cmd.afuEvent`host, cmd.afuEvent`avail
    ensures cmd.Valid() && cmd.Events() <= old(cmd.Events())
    ensures var n := Outcomes(cmd.hostClSize, old(cmd.View()), old(cmd.afuEvent.View()), p);
      && cmd.View() == CmdAssembly.Before(cmd.hostClSize, old(cmd.View()), n) && NoticesFit(cmd.View().list)
      && EventBefore(cmd.hostClSize, old(cmd.View()), old(cmd.afuEvent.View()), n, p.bdi) == (cmd.afuEvent.View(), true)
      && n.cmd == old(cmd.View()).cmd && n.cdata == old(cmd.View()).cdata
      && n.pos == Clip(p.pos, |cmd.list|) && n.write == p.write && n.intr == p.intr && n.op == p.op
  {
    hide Inv, CmdHandlers.Cmd.Valid, CmdHandlers.Cmd.View, CmdHandlers.Cmd.Pointers, Pickable, CmdAssembly.Before,
      CanRespond, NoticesFit, EventBefore, Offered, OfferedPosted, Outcomes;
    hide HandleResponse, HandleBufferWrite, HandlePendingSent, CmdHandlers.AnswerTried, PostedFor, E.SendResp, PickOf;
    Engine(cmd);
    ghost var s, e := cmd.View(), cmd.afuEvent.View();
    var rc := cmd.HandleResponse(p.bdi);
    Engine(cmd);
    ghost var s1, e1 := cmd.View(), cmd.afuEvent.View();
    TriedIs(cmd.hostClSize, s, e, p.bdi, rc, e1);
    FitsAfter(cmd.hostClSize, s, Respond(rc == Some(E.Success)));
    var asked := cmd.HandleBufferWrite(p.read);
    Engine(cmd);
    ghost var s2 := cmd.View();
    FitsAfter(cmd.hostClSize, s1, BufferWrite(p.read));
    var pick, rc2 := cmd.HandlePendingSent(Reorder(p.reorder, |cmd.list|), p.posted);
    PostedIs(s2, e1, pick, p.posted, rc2, cmd.afuEvent.View());
    FitsAfter(cmd.hostClSize, s2, FinishPending(pick, p.posted, rc2 == Some(E.Success)));
    Engine(cmd);
    OutcomesAre(cmd.hostClSize, s, p, s1, s2, cmd.View(), pick, e, rc, e1, rc2);
    ghost var n := Outcomes(cmd.hostClSize, s, e, p);
    BeforeIs(cmd.hostClSize, s, n, s1, s2, cmd.View(), pick, e, e1, cmd.afuEvent.View(), p.bdi);
  }

  /** One pass over the engine after tlx_get_afu_events: exactly the pass of the value model, with the outcomes the
      link gives and the link's event as those answers leave it. */
  method HandleAfu(cmd: CmdHandlers.Cmd, p: Parms)
    requires cmd.Valid() && InterruptsFit(cmd.hostClSize, cmd.View(), cmd.afuEvent.View(), p)
    modifies cmd, cmd.Events(), cmd.Clients(), cmd.afuEvent`host, cmd.afuEvent`avail, cmd.afuEvent`afu
    ensures cmd.Valid() && NoticesFit(cmd.View().list)
    ensures var n := Outcomes(cmd.hostClSize, old(cmd.View()), old(cmd.afuEvent.View()), p);
      && cmd.View() == CmdAssembly.Pass(cmd.hostClSize, old(cmd.View()), n)
      && EventPass(cmd.hostClSize, old(cmd.View()), old(cmd.afuEvent.View()), n, p.bdi) == (cmd.afuEvent.View(), true)
  {
    hide Inv, CmdHandlers.Cmd.Valid, CmdHandlers.Cmd.View, CmdHandlers.Cmd.Pointers, CmdAssembly.Before,
      CmdAssembly.Pass, CmdAssembly.AtData, NoticesFit, TooLong, EventBefore, EventPass, Outcomes;
    hide HandleCmd, HandleCmdData, HandleWriteCmd, HandleInterrupt, HandleOperate, CanFill, CanWrite, CanOperate,
      CanInterrupt, Picks, CmdHandlers.Staged;
    Engine(cmd);
    ghost var s, e := cmd.View(), cmd.afuEvent.View();
    ghost var n := Outcomes(cmd.hostClSize, s, e, p);
    AnswerHalf(cmd, p);
    Engine(cmd);
    ghost var s3, e3 := cmd.View(), cmd.afuEvent.View();
    CmdAssembly.BeforeBeside(cmd.hostClSize, s, n);
    cmd.HandleCmd(Clip(p.pos, |cmd.list|));
    Engine(cmd);
    ghost var s4, e4 := cmd.View(), cmd.afuEvent.View();
    cmd.HandleCmdData();
    Engine(cmd);
    ghost var s5, e5 := cmd.View(), cmd.afuEvent.View();
    var written := cmd.HandleWriteCmd(p.write);
    Engine(cmd);
    ghost var s6 := cmd.View();
    FitsToInterrupt(cmd.hostClSize, s3, n, s4, s5, s6);
    var told := cmd.HandleInterrupt(p.intr);
    Engine(cmd);
    ghost var s7 := cmd.View();
    var operated := cmd.HandleOperate(p.op);
    Engine(cmd);
    FitsToEnd(cmd.hostClSize, s6, n, s7);
    PassIs(cmd.hostClSize, s, n, s3, s4, s5, s6, s7);
    LinkPassIs(cmd.hostClSize, s, n, s3, s4, e, e3, e4, e5, p.bdi);
  }
}
