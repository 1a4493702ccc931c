/** The copies handle_interrupt makes (ocse/cmd.c): when they stay inside their buffers, exactly, and what the message
    says. pl_to_size answers -1 for a pl of 6 or 7, which becomes 65535 in the size of an interrupt with data. */
module CmdBounds {
  import opened Common
  import opened TlxPacket
  import opened CmdEngine
  import opened CmdInvariant
  import opened CmdTheorems
  import opened CmdInputs

  /** handle_cmd is about to accept an interrupt with data whose pl stands for no size. */
  predicate TooLong(s: State) {
    && s.cmd.Some?
    && var c := s.cmd.value;
    c.opcode == 0x5a && PlToSize(c.pl) == -1 && !HasTag(s.list, c.afutag) && FindByActag(s.clients, c.actag).Some?
  }

  predicate Fits(e: Ev) {
    Picks(ToInterrupt, e) ==> CanNotify(e)
  }

  // ---------- handle_cmd ----------

  lemma FitsAfterInsert(list: seq<Ev>, pos: nat, e: Ev)
    requires pos <= |list|
    ensures NoticesFit(Insert(list, pos, e)) <==> NoticesFit(list) && Fits(e)
  {
    hide CanNotify, Picks;
    var t := Insert(list, pos, e);
    assert t[pos] == e && list == list[..pos] + list[pos..];
  }

  lemma AddFits(s: State, e: Ev, beat: Option<LineBeat>, pos: nat)
    requires pos <= |s.list| && |e.data| == 256 && (e.command == 0x5a ==> e.typ == CmdInterrupt)
    ensures NoticesFit(AddCmd(s, e, beat, pos).list) <==> NoticesFit(s.list) && Fits(e)
  {
    FitsAfterInsert(s.list, pos, e);
    if beat.Some? {
      var f := Fill(e, beat.value);
      assert Fits(f) <==> Fits(e);
      hide NoticesFit, Fits, Fill, Insert;
      FitsAfterInsert(s.list, pos, f);
    }
  }

  /** An interrupt with data fits exactly when its size leaves room in the message. */
  lemma FoundFits(s: State, c: AfuCmd, typ: CmdType, addr: U64, size: nat, state: MemState, resp: Byte, opcode: Byte,
                  beat: Option<LineBeat>, pos: nat)
    requires pos <= |s.list| && (c.opcode == 0x5a ==> typ == CmdInterrupt && state == Idle)
    ensures NoticesFit(AddFound(s, c, typ, addr, size, state, resp, opcode, beat, pos).list)
      <==> NoticesFit(s.list) && (c.opcode == 0x5a && FindByActag(s.clients, c.actag).Some? ==> size <= 33)
  {
    var f := FindByActag(s.clients, c.actag);
    if f.Some? {
      var e := NewEvent(f.value, c, typ, addr, size, state, resp, opcode);
      assert Fits(e) <==> c.opcode != 0x5a || size <= 33;
      hide NoticesFit, Fits, NewEvent, AddCmd, FindByActag;
      NewEventIs(f.value, c, typ, addr, size, state, resp, opcode);
      AddFits(s, e, beat, pos);
    }
  }

  lemma NewEventIs(context: nat, c: AfuCmd, typ: CmdType, addr: U64, size: nat, state: MemState, resp: Byte,
      opcode: Byte)
    ensures var e := NewEvent(context, c, typ, addr, size, state, resp, opcode);
      |e.data| == 256 && e.command == c.opcode && e.typ == typ
  {
  }

  lemma FailFits(s: State, c: AfuCmd, code: Byte, opcode: Byte, pos: nat)
    requires pos <= |s.list| && c.opcode != 0x5a
    ensures NoticesFit(AddFail(s, c, code, opcode, pos).list) <==> NoticesFit(s.list)
  {
    hide NoticesFit, AddFound;
    FoundFits(s, c, CmdFailed, 0, 0, Done, code, opcode, None, pos);
  }

  lemma CheckedFits(s: State, c: AfuCmd, typ: CmdType, size: int, eventSize: int, state: MemState, failed: Byte,
      ok: Byte, beat: Option<LineBeat>, pos: nat)
    requires pos <= |s.list| && (size == -1 || size > 0) && (size > 0 ==> eventSize >= 0) && c.opcode != 0x5a
    ensures var t := AddChecked(s, c, typ, size, eventSize, state, failed, ok, beat, pos);
      NoticesFit(t.list) <==> NoticesFit(s.list)
  {
    hide NoticesFit, AddFound, AddFail, AddrOf, FindByActag;
    var a := AlignmentOf(AddrOf(c), size);
    hide AlignmentOf;
    if a == Aligned {
      FoundFits(s, c, typ, AddrOf(c), eventSize, state, 0, ok, beat, pos);
    } else {
      FailFits(s, c, if a == BadSize then 0x09 else 0x0b, failed, pos);
    }
  }

  lemma AmoFits(s: State, c: AfuCmd, beat: Option<LineBeat>, pos: nat)
    requires pos <= |s.list| && c.opcode != 0x5a
    ensures NoticesFit(AddAmo(s, c, beat, pos).list) <==> NoticesFit(s.list)
  {
    hide NoticesFit, AddFound, AddFail, AddrOf, AmoBadSize, FindByActag;
    var asRead := IsAmoRw(c.opcode) || c.opcode == 0x38;
    if AmoBadSize(c).Some? {
      FailFits(s, c, 0x09, AmoBadSize(c).value, pos);
    }
    FailFits(s, c, 0x0b, if asRead then READ_FAILED else WRITE_FAILED, pos);
    FoundFits(s, c, AmoType(c.opcode), AddrOf(c), if c.pl in {2, 6} then 4 else 8, Idle, 0,
              if asRead then READ_RESP else WRITE_RESP, beat, pos);
  }

  lemma InterruptFits(s: State, c: AfuCmd, size: int, beat: Option<LineBeat>, pos: nat)
    requires pos <= |s.list| && IsInterrupt(c.opcode)
    requires if c.opcode == 0x5a then size == PlToSize(c.pl) else size == 0
    ensures NoticesFit(AddInterrupt(s, c, size, beat, pos).list)
      <==> NoticesFit(s.list)
           && !(c.opcode == 0x5a && PlToSize(c.pl) == -1 && FindByActag(s.clients, c.actag).Some?)
  {
    hide NoticesFit, AddFound, AddrOf, FindByActag;
    var wake := c.opcode == 0x5c;
    FoundFits(s, c, if wake then CmdWake else CmdInterrupt, AddrOf(c), if size == -1 then 65535 else size, Idle, 0,
              if wake then WAKE_RESP else INTRP_RESP, beat, pos);
  }

  lemma ParseFits(s: State, c: AfuCmd, beat: Option<LineBeat>, pos: nat)
    requires pos <= |s.list|
    ensures NoticesFit(ParseCmd(s, c, beat, pos).list)
      <==> NoticesFit(s.list)
           && !(c.opcode == 0x5a && PlToSize(c.pl) == -1 && FindByActag(s.clients, c.actag).Some?)
  {
    var r := s.(cdata := beat);
    var o := c.opcode;
    hide NoticesFit, AddChecked, AddAmo, AddInterrupt, AddFail, FindByActag;
    if IsRead(o) {
      CheckedFits(r, c, CmdRead, DlToSize(c.dl), DlToSize(c.dl), Idle, READ_FAILED, READ_RESP, None, pos);
    } else if IsPartialRead(o) {
      CheckedFits(r, c, CmdRead, PlToSize(c.pl), PlToSize(c.pl), Idle, READ_FAILED, READ_RESP, None, pos);
    } else if IsWrite(o) {
      CheckedFits(s, c, CmdWrite, DlToSize(c.dl), DlToSize(c.dl), Idle, WRITE_FAILED, WRITE_RESP, beat, pos);
    } else if IsPartialWrite(o) {
      CheckedFits(s, c, CmdWrite, PlToSize(c.pl), PlToSize(c.pl), Idle, WRITE_FAILED, WRITE_RESP, beat, pos);
    } else if IsWriteBe(o) {
      CheckedFits(s, c, CmdWrBe, 64, 64, Idle, WRITE_FAILED, WRITE_RESP, beat, pos);
    } else if IsAmoRd(o) || IsAmoRw(o) || IsAmoW(o) {
      AmoFits(s, c, beat, pos);
    } else if IsInterrupt(o) {
      InterruptFits(s, c, if o == 0x5a then PlToSize(c.pl) else 0, beat, pos);
    } else if IsTouch(o) {
      CheckedFits(r, c, CmdTouch, 64, 0, Done, TOUCH_RESP, TOUCH_RESP, None, pos);
    } else if o != 0 && o != 0x50 {
      FailFits(s, c, RESPONSE_FAILED, RESPONSE_FAILED, pos);
    }
  }

  /** handle_cmd leaves every waiting interrupt fitting its message exactly when the one it accepts is not too long. */
  lemma AcceptedFits(s: State, pos: nat)
    requires pos <= |s.list|
    ensures NoticesFit(HandleCmd(s, pos).list) <==> NoticesFit(s.list) && !TooLong(s)
  {
    hide NoticesFit, ParseCmd, HasTag, FindByActag;
    if s.cmd.Some? && !HasTag(s.list, s.cmd.value.afutag) {
      ParseFits(s.(cmd := None, cdata := None), s.cmd.value, s.cdata, pos);
    }
  }

  // ---------- the other handlers ----------

  lemma FitsAfterReplace(list: seq<Ev>, i: nat, e: Ev)
    requires i < |list| && NoticesFit(list) && !Picks(ToInterrupt, e)
    ensures NoticesFit(list[i := e])
  {
  }

  lemma FitsAfterRemove(list: seq<Ev>, i: nat)
    requires i < |list| && NoticesFit(list)
    ensures NoticesFit(Remove(list, i))
  {
  }

  lemma ResolveFits(s: State, i: nat, f: Fate)
    requires i < |s.list| && NoticesFit(s.list) && !Picks(ToInterrupt, f.e)
    ensures NoticesFit(Resolve(s, i, f).list)
  {
    hide NoticesFit, Picks;
    match f
    case Stays(e) => FitsAfterReplace(s.list, i, e);
    case Leaves(e) => FitsAfterRemove(s.list, i);
  }

  lemma AnswerLeaves(cl: nat, e: Ev, accept: bool)
    requires CanSend(cl, e) && Picks(ToRespond, e)
    ensures !Picks(ToInterrupt, Answer(cl, e, accept).e)
  {
  }

  /** No other step makes an interrupt wait. */
  lemma StepFits(cl: nat, s: State, a: Step)
    requires ValidCl(cl) && Inv(cl, s) && Enabled(cl, s, a) && !a.Parse? && NoticesFit(s.list)
    ensures NoticesFit(Next(cl, s, a).list)
  {
    hide NoticesFit, Inv, HandleBufferWrite, HandleWriteCmd, HandleInterrupt, HandleOperate, HandleAnswer,
      HandleCmdData;
    match a {
      case Respond(accept) =>
        var i := First(s.list, ToRespond);
        if i < |s.list| {
          AnswerLeaves(cl, s.list[i], accept);
          hide Answer, CanSend;
          ResolveFits(s, i, Answer(cl, s.list[i], accept));
        }
      case FinishPending(pick, w, ok) =>
        if pick.Some? {
          ResolveFits(s, pick.value, Finish(s.list[pick.value], w, ok));
        }
      case ClientAnswer(context, ok, bytes) => ClientFits(cl, s, context, ok, bytes);
      case BufferWrite(w) => ReadFits(s, w);
      case CmdData => DataFits(s);
      case WriteCmd(w) => WriteFits(s, w);
      case Interrupt(w) => IntrFits(s, w);
      case Operate(w) => OperateFits(s, w);
      case _ =>
    }
  }

  lemma ClientFits(cl: nat, s: State, context: nat, ok: bool, bytes: seq<Byte>)
    requires ValidCl(cl) && Inv(cl, s) && CanAnswer(s, context, ok, bytes) && NoticesFit(s.list)
    ensures NoticesFit(HandleAnswer(s, context, ok, bytes).list)
  {
    var a := s.clients[context].value.access;
    if a.Some? {
      AccessedEvent(cl, s, context);
      var i := TagIndex(s.list, a.value);
      var e := if ok then MemReturn(s.list[i], bytes) else Aerror(s.list[i]);
      assert e.state == Done;
      hide Inv, NoticesFit, MemReturn, Aerror;
      FitsAfterReplace(s.list, i, e);
    }
  }

  lemma ReadFits(s: State, w: Allow)
    requires NoticesFit(s.list)
    ensures NoticesFit(HandleBufferWrite(s, w).list)
  {
    var i := First(s.list, ToRead);
    if i < |s.list| {
      hide NoticesFit;
      FitsAfterReplace(s.list, i, HandleBufferWrite(s, w).list[i]);
    }
  }

  lemma DataFits(s: State)
    requires NoticesFit(s.list) && forall e :: e in s.list && Picks(ToFill, e) ==> CanFill(e)
    ensures NoticesFit(HandleCmdData(s).list)
  {
    var i := First(s.list, ToFill);
    if i < |s.list| {
      hide NoticesFit;
      FitsAfterReplace(s.list, i, HandleCmdData(s).list[i]);
    }
  }

  lemma WriteFits(s: State, w: Allow)
    requires NoticesFit(s.list) && forall e :: e in s.list && Picks(ToWrite, e) ==> CanWrite(e)
    ensures NoticesFit(HandleWriteCmd(s, w).list)
  {
    var i := First(s.list, ToWrite);
    if i < |s.list| {
      hide NoticesFit, CanWrite;
      FitsAfterReplace(s.list, i, HandleWriteCmd(s, w).list[i]);
    }
  }

  lemma IntrFits(s: State, w: Allow)
    requires NoticesFit(s.list) && CanInterrupt(s, w)
    ensures NoticesFit(HandleInterrupt(s, w).list)
  {
    var i := First(s.list, ToInterrupt);
    if i < |s.list| {
      hide NoticesFit, NoticeBytes;
      FitsAfterReplace(s.list, i, AfterInterrupt(s.list[i], w));
    }
  }

  lemma OperateFits(s: State, w: Allow)
    requires NoticesFit(s.list) && forall e :: e in s.list && Picks(ToOperate, e) ==> CanOperate(e)
    ensures NoticesFit(HandleOperate(s, w).list)
  {
    var i := First(s.list, ToOperate);
    if i < |s.list| {
      hide NoticesFit, OpReqOf, CanOperate;
      FitsAfterReplace(s.list, i, HandleOperate(s, w).list[i]);
    }
  }

  // ---------- runs ----------

  /** In the first n steps no interrupt with data is accepted with a pl that stands for no size. */
  predicate NeverTooLong(states: seq<State>, steps: seq<Step>, n: nat)
    requires n <= |steps| < |states|
  {
    forall k :: 0 <= k < n && steps[k].Parse? ==> !TooLong(states[k])
  }

  lemma {:induction false} RunFits(cl: nat, maxClients: nat, states: seq<State>, steps: seq<Step>, n: nat)
    requires ValidCl(cl) && Run(cl, maxClients, states, steps) && n <= |steps| && NeverTooLong(states, steps, n)
    ensures NoticesFit(states[n].list)
  {
    if n > 0 {
      RunFits(cl, maxClients, states, steps, n - 1);
      RunInv(cl, maxClients, states, steps, n - 1);
      var s, a := states[n - 1], steps[n - 1];
      hide Inv, NoticesFit, TooLong, HandleCmd;
      if a.Parse? {
        AcceptedFits(s, a.pos);
      } else {
        hide Enabled, Next;
        StepFits(cl, s, a);
      }
    }
  }

  /** In every run in which no accepted interrupt is too long, no handler leaves a buffer or follows a stale pointer:
      whatever is chosen next, the handler is defined. */
  lemma NeverOutOfBounds(cl: nat, maxClients: nat, states: seq<State>, steps: seq<Step>, n: nat, a: Step)
    requires ValidCl(cl) && Run(cl, maxClients, states, steps) && n <= |steps| && NeverTooLong(states, steps, n)
    requires var s := states[n];
      && (a.ClientAnswer? ==>
            a.context < |s.clients| && s.clients[a.context].Some? && BytesAsked(s, a.context, a.bytes))
      && (a.Parse? ==> a.pos <= |s.list|)
      && (a.FinishPending? ==> Pickable(s, a.pick))
      && (a.Attach? ==> a.slot < |s.clients| && s.clients[a.slot].None?)
    ensures Enabled(cl, states[n], a)
  {
    RunInv(cl, maxClients, states, steps, n);
    RunFits(cl, maxClients, states, steps, n);
    hide Inv, NoticesFit, Enabled, Run, NeverTooLong;
    HandlersDefined(cl, states[n], a);
  }

  // ---------- the exact condition ----------

  /** k calls of handle_interrupt, none of them refused, stay inside their buffers. */
  predicate Drains(s: State, k: nat)
    decreases k
  {
    k == 0 || (CanInterrupt(s, UNREFUSED) && Drains(HandleInterrupt(s, UNREFUSED), k - 1))
  }

  ghost predicate AllDrain(s: State) {
    forall k: nat :: Drains(s, k)
  }

  lemma {:induction false} DrainsWhenFit(s: State, k: nat)
    requires NoticesFit(s.list)
    ensures Drains(s, k)
    decreases k
  {
    if k > 0 {
      IntrFits(s, UNREFUSED);
      DrainsWhenFit(HandleInterrupt(s, UNREFUSED), k - 1);
    }
  }

  lemma {:induction false} OverrunReached(s: State) returns (k: nat)
    requires !NoticesFit(s.list)
    ensures !Drains(s, k)
    decreases |s.list| - First(s.list, ToInterrupt)
  {
    if CanInterrupt(s, UNREFUSED) {
      PassedOn(s);
      var k' := OverrunReached(HandleInterrupt(s, UNREFUSED));
      k := k' + 1;
    } else {
      k := 1;
    }
  }

  /** Passing on an interrupt that fits leaves one that does not waiting, and brings it nearer. */
  lemma PassedOn(s: State)
    requires !NoticesFit(s.list) && CanInterrupt(s, UNREFUSED)
    ensures var t := HandleInterrupt(s, UNREFUSED);
      !NoticesFit(t.list) && |t.list| == |s.list| && First(s.list, ToInterrupt) < First(t.list, ToInterrupt)
  {
    var e :| e in s.list && Picks(ToInterrupt, e) && !CanNotify(e);
    var j :| 0 <= j < |s.list| && s.list[j] == e;
    var i := First(s.list, ToInterrupt);
    var n := AfterInterrupt(s.list[i], UNREFUSED);
    assert !Picks(ToInterrupt, n);
    var t := HandleInterrupt(s, UNREFUSED);
    hide AfterInterrupt, NoticeBytes, Picks;
    assert t.list == s.list[i := n] && t.list[j] == e;
    assert forall m :: 0 <= m <= i ==> !Picks(ToInterrupt, t.list[m]);
  }

  /** handle_interrupt stays inside its buffers for everything that waits if and only if all of it fits. */
  lemma DrainsExactly(s: State)
    ensures NoticesFit(s.list) <==> AllDrain(s)
  {
    if NoticesFit(s.list) {
      forall k: nat ensures Drains(s, k) {
        DrainsWhenFit(s, k);
      }
    } else {
      var k := OverrunReached(s);
    }
  }

  /** The exact condition, over every run: after a command is accepted, the interrupts waiting can all be passed on
      inside the buffers if and only if that command was not an interrupt with data whose pl stands for no size. */
  lemma OverrunExactly(cl: nat, maxClients: nat, states: seq<State>, steps: seq<Step>, n: nat)
    requires ValidCl(cl) && Run(cl, maxClients, states, steps) && n < |steps| && NeverTooLong(states, steps, n)
    requires steps[n].Parse?
    ensures AllDrain(states[n + 1]) <==> !TooLong(states[n])
  {
    RunFits(cl, maxClients, states, steps, n);
    AcceptedFits(states[n], steps[n].pos);
    DrainsExactly(states[n + 1]);
  }

  /** intrp_req.d with pl 6. */
  const LONG_INTERRUPT := AfuCmd(0x5a, 0, 0, OBJ, 7, 0, 6, 0, 0, 0, 0, 0, 0)

  lemma InterruptArrives()
    ensures HandleCmd(State([], [Some(CLIENT)], Some(LONG_INTERRUPT), None, [], [], []), 0)
      == Alone([NewEvent(0, LONG_INTERRUPT, CmdInterrupt, 0, 65535, Idle, 0, INTRP_RESP)], CLIENT, [], [])
  {
    AddrZero(LONG_INTERRUPT);
    FoundAlone(LONG_INTERRUPT, CmdInterrupt, 65535, Idle, 0, INTRP_RESP, None);
    hide AddFound, NewEvent, AddrOf, FindByActag;
  }

  /** The failing input: a client attaches and one interrupt with data and pl 6 arrives. It is accepted, with 65535
      bytes to copy out of 256 into 45, and every unrefused call of handle_interrupt would make that copy. */
  lemma LongInterruptOverruns(cl: nat) returns (states: seq<State>, steps: seq<Step>)
    requires ValidCl(cl)
    ensures Run(cl, 1, states, steps)
    ensures var t := states[|steps|];
      && |t.list| == 1 && t.list[0].came == LONG_INTERRUPT && t.list[0].size == 65535
      && forall a :: !IntrRefused(t.list[0], a) ==> !Enabled(cl, t, Interrupt(a))
  {
    InterruptArrives();
    var e := NewEvent(0, LONG_INTERRUPT, CmdInterrupt, 0, 65535, Idle, 0, INTRP_RESP);
    states, steps := Arrives(cl, LONG_INTERRUPT, None, e);
    hide Run;
    assert First([e], ToInterrupt) == 0 && !CanNotify(e);
  }

  // ---------- the message ----------

  /** What _handle_interrupt of libocxl reads: flag, address as it lies in memory, and with data a size and so many
      bytes. */
  datatype Heard = Heard(kind: Byte, flag: Byte, addr: nat, data: seq<Byte>)

  predicate WholeNotice(s: seq<Byte>) {
    |s| >= 10 && if s[0] == OCSE_INTERRUPT_D then |s| >= 12 && |s| == 12 + FromLittleEndian(s[10..12]) else |s| == 10
  }

  function Hear(s: seq<Byte>): Heard
    requires WholeNotice(s)
  {
    Heard(s[0], s[1], FromLittleEndian(s[2..10]), if s[0] == OCSE_INTERRUPT_D then s[12..] else [])
  }

  /** OCSE_WAKE_HOST_THREAD, OCSE_INTERRUPT_D or OCSE_INTERRUPT. */
  function KindByte(e: Ev): Byte {
    if e.typ == CmdWake then 0x15 else if e.command == 0x5a then 0x16 else 0x13
  }

  /** The application hears exactly the kind, flag, address and data of the command, the data never more than the 32
      bytes it has room for. */
  lemma NoticeHeard(cl: nat, e: Ev)
    requires ValidCl(cl) && Shape(cl, e) && Picks(ToInterrupt, e) && CanNotify(e)
    ensures WholeNotice(NoticeBytes(e))
    ensures var h := Hear(NoticeBytes(e));
      && h.kind == KindByte(e) && h.flag == e.flag && h.addr == e.addr && |h.data| <= 32
      && h.data == (if e.command == 0x5a then e.data[e.addr % 64..e.addr % 64 + e.size] else [])
  {
    PowersOf256();
    LittleEndianRoundTrip(e.addr, 8);
    LittleEndianRoundTrip(e.size, 2);
    hide LittleEndian, FromLittleEndian, Pow256;
    var s := NoticeBytes(e);
    assert s[2..10] == LittleEndian(e.addr, 8);
    if e.command == 0x5a {
      assert s[10..12] == LittleEndian(e.size, 2);
      assert s[12..] == e.data[e.addr % 64..e.addr % 64 + e.size];
    }
  }
}
