/** How a write's data is put together from 64-byte beats that arrive over several clocks, while other commands
    arrive on the same interface (ocse/cmd.c). */
module CmdAssembly {
  import opened Common
  import opened TlxPacket
  import opened CmdEngine
  import opened CmdInvariant
  import opened CmdTheorems

  /** The write in MEM_BUFFER, of which there is at most one. */
  function Filling(list: seq<Ev>): Option<Ev> {
    var i := First(list, ToFill);
    if i < |list| then Some(list[i]) else None
  }

  /** A command that brings data passes the checks of size and address made before it is added. */
  predicate PassesChecks(c: AfuCmd) {
    var o := c.opcode;
    || (IsWrite(o) && AlignmentOf(AddrOf(c), DlToSize(c.dl)) == Aligned)
    || (IsPartialWrite(o) && AlignmentOf(AddrOf(c), PlToSize(c.pl)) == Aligned)
    || (IsWriteBe(o) && AddrOf(c) % 64 == 0)
    || ((IsAmoRd(o) || IsAmoRw(o) || IsAmoW(o)) && AmoBadSize(c).None?
          && AddrOf(c) % (if c.pl in {2, 6} then 4 else 8) == 0)
  }

  /** Whether handle_cmd leaves staged a beat that belongs to an earlier write: the command must be one that
      restores it (actag assignment, reads and touches) or one that is really added with data. */
  predicate KeepsBeat(s: State, c: AfuCmd) {
    var known := FindByActag(s.clients, c.actag).Some?;
    var o := c.opcode;
    && !HasTag(s.list, c.afutag)
    && (o == 0x50 || IsRead(o) || IsPartialRead(o) || IsTouch(o)
        || (known && (PassesChecks(c) || IsInterrupt(o))))
  }

  // ---------- the list around the write ----------

  lemma FillingAfterReplace(list: seq<Ev>, i: nat, e: Ev)
    requires i < |list| && !Picks(ToFill, list[i]) && !Picks(ToFill, e)
    ensures Filling(list[i := e]) == Filling(list)
  {
    hide Picks;
    var t := list[i := e];
    assert forall k :: 0 <= k < |list| ==> (Picks(ToFill, t[k]) <==> Picks(ToFill, list[k]));
  }

  lemma FillingAfterRemove(list: seq<Ev>, i: nat)
    requires i < |list| && !Picks(ToFill, list[i])
    ensures Filling(Remove(list, i)) == Filling(list)
  {
    hide Picks;
    var t := Remove(list, i);
    var f := First(list, ToFill);
    assert forall k :: 0 <= k < i ==> t[k] == list[k];
    assert forall k :: i <= k < |t| ==> t[k] == list[k + 1];
    var g := if f < i then f else f - 1;
    if f < |list| {
      assert t[g] == list[f];
    }
  }

  lemma FillingAfterInsert(list: seq<Ev>, pos: nat, e: Ev)
    requires pos <= |list| && !Picks(ToFill, e)
    ensures Filling(Insert(list, pos, e)) == Filling(list)
  {
    hide Picks;
    var t := Insert(list, pos, e);
    var f := First(list, ToFill);
    assert forall k :: 0 <= k < pos ==> t[k] == list[k];
    assert forall k :: pos < k < |t| ==> t[k] == list[k - 1];
    if f < |list| {
      assert t[if f < pos then f else f + 1] == list[f];
    }
  }

  // ---------- handle_cmd beside a write ----------

  lemma AddBeside(s: State, e: Ev, beat: Option<LineBeat>, pos: nat)
    requires DataExpected(s.list) && pos <= |s.list| && !Picks(ToFill, e)
    ensures AddCmd(s, e, beat, pos).cdata == (if beat.Some? then beat else s.cdata)
    ensures Filling(AddCmd(s, e, beat, pos).list) == Filling(s.list)
  {
    FillingAfterInsert(s.list, pos, e);
  }

  lemma FoundBeside(s: State, c: AfuCmd, typ: CmdType, addr: U64, size: nat, state: MemState, resp: Byte, opcode: Byte,
                    beat: Option<LineBeat>, pos: nat)
    requires DataExpected(s.list) && pos <= |s.list| && state != Buffer
    ensures var t := AddFound(s, c, typ, addr, size, state, resp, opcode, beat, pos);
      && Filling(t.list) == Filling(s.list)
      && t.cdata == (if beat.Some? && FindByActag(s.clients, c.actag).Some? then beat else s.cdata)
  {
    var f := FindByActag(s.clients, c.actag);
    hide AddCmd, Filling, DataExpected, FindByActag, NewEvent;
    if f.Some? {
      NewEventState(f.value, c, typ, addr, size, state, resp, opcode);
      AddBeside(s, NewEvent(f.value, c, typ, addr, size, state, resp, opcode), beat, pos);
    }
  }

  lemma NewEventState(context: nat, c: AfuCmd, typ: CmdType, addr: U64, size: nat, state: MemState, resp: Byte,
      opcode: Byte)
    ensures NewEvent(context, c, typ, addr, size, state, resp, opcode).state == state
  {
  }

  lemma FailBeside(s: State, c: AfuCmd, code: Byte, opcode: Byte, pos: nat)
    requires DataExpected(s.list) && pos <= |s.list|
    ensures AddFail(s, c, code, opcode, pos).cdata == s.cdata
    ensures Filling(AddFail(s, c, code, opcode, pos).list) == Filling(s.list)
  {
    hide AddFound, Filling, DataExpected;
    FoundBeside(s, c, CmdFailed, 0, 0, Done, code, opcode, None, pos);
  }

  lemma CheckedBeside(s: State, c: AfuCmd, typ: CmdType, size: int, eventSize: int, state: MemState, failed: Byte,
      ok: Byte, beat: Option<LineBeat>, pos: nat)
    requires DataExpected(s.list) && pos <= |s.list| && (size == -1 || size > 0) && (size > 0 ==> eventSize >= 0)
    requires state != Buffer
    ensures var t := AddChecked(s, c, typ, size, eventSize, state, failed, ok, beat, pos);
      && Filling(t.list) == Filling(s.list)
      && t.cdata == (if beat.Some? && AlignmentOf(AddrOf(c), size) == Aligned && FindByActag(s.clients, c.actag).Some?
                     then beat else s.cdata)
  {
    hide AddFound, AddFail, Filling, DataExpected, FindByActag, AddrOf;
    var a := AlignmentOf(AddrOf(c), size);
    hide AlignmentOf;
    if a == Aligned {
      FoundBeside(s, c, typ, AddrOf(c), eventSize, state, 0, ok, beat, pos);
    } else {
      FailBeside(s, c, if a == BadSize then 0x09 else 0x0b, failed, pos);
    }
  }

  lemma AmoBeside(s: State, c: AfuCmd, beat: Option<LineBeat>, pos: nat)
    requires DataExpected(s.list) && pos <= |s.list|
    ensures var t := AddAmo(s, c, beat, pos);
      && Filling(t.list) == Filling(s.list)
      && t.cdata == (if beat.Some? && AmoBadSize(c).None? && AddrOf(c) % (if c.pl in {2, 6} then 4 else 8) == 0
                        && FindByActag(s.clients, c.actag).Some? then beat else s.cdata)
  {
    hide AddFound, AddFail, Filling, DataExpected, FindByActag, AddrOf, AmoBadSize;
    var asRead := IsAmoRw(c.opcode) || c.opcode == 0x38;
    if AmoBadSize(c).Some? {
      FailBeside(s, c, 0x09, AmoBadSize(c).value, pos);
    }
    FailBeside(s, c, 0x0b, if asRead then READ_FAILED else WRITE_FAILED, pos);
    FoundBeside(s, c, AmoType(c.opcode), AddrOf(c), if c.pl in {2, 6} then 4 else 8, Idle, 0,
                if asRead then READ_RESP else WRITE_RESP, beat, pos);
  }

  lemma InterruptBeside(s: State, c: AfuCmd, size: int, beat: Option<LineBeat>, pos: nat)
    requires DataExpected(s.list) && pos <= |s.list| && size >= -1
    ensures var t := AddInterrupt(s, c, size, beat, pos);
      && Filling(t.list) == Filling(s.list)
      && t.cdata == (if beat.Some? && FindByActag(s.clients, c.actag).Some? then beat else s.cdata)
  {
    hide AddFound, Filling, DataExpected, FindByActag, AddrOf;
    var wake := c.opcode == 0x5c;
    FoundBeside(s, c, if wake then CmdWake else CmdInterrupt, AddrOf(c), if size == -1 then 65535 else size, Idle, 0,
                if wake then WAKE_RESP else INTRP_RESP, beat, pos);
  }

  lemma ParseBeside(s: State, c: AfuCmd, beat: Option<LineBeat>, pos: nat)
    requires DataExpected(s.list) && pos <= |s.list| && s.cdata.None? && !HasTag(s.list, c.afutag)
    ensures var t := ParseCmd(s, c, beat, pos);
      && Filling(t.list) == Filling(s.list)
      && t.cdata == (if KeepsBeat(s, c) then beat else None)
  {
    var r := s.(cdata := beat);
    var o := c.opcode;
    hide AddChecked, AddAmo, AddInterrupt, AddFail, Filling, DataExpected, FindByActag, HasTag, AmoBadSize, AlignmentOf;
    if IsRead(o) {
      CheckedBeside(r, c, CmdRead, DlToSize(c.dl), DlToSize(c.dl), Idle, READ_FAILED, READ_RESP, None, pos);
    } else if IsPartialRead(o) {
      CheckedBeside(r, c, CmdRead, PlToSize(c.pl), PlToSize(c.pl), Idle, READ_FAILED, READ_RESP, None, pos);
    } else if IsWrite(o) {
      CheckedBeside(s, c, CmdWrite, DlToSize(c.dl), DlToSize(c.dl), Idle, WRITE_FAILED, WRITE_RESP, beat, pos);
    } else if IsPartialWrite(o) {
      CheckedBeside(s, c, CmdWrite, PlToSize(c.pl), PlToSize(c.pl), Idle, WRITE_FAILED, WRITE_RESP, beat, pos);
    } else if IsWriteBe(o) {
      CheckedBeside(s, c, CmdWrBe, 64, 64, Idle, WRITE_FAILED, WRITE_RESP, beat, pos);
      WriteBeAlignment(c);
    } else if IsAmoRd(o) || IsAmoRw(o) || IsAmoW(o) {
      AmoBeside(s, c, beat, pos);
    } else if IsInterrupt(o) {
      InterruptBeside(s, c, if o == 0x5a then PlToSize(c.pl) else 0, beat, pos);
    } else if IsTouch(o) {
      CheckedBeside(r, c, CmdTouch, 64, 0, Done, TOUCH_RESP, TOUCH_RESP, None, pos);
    } else if o != 0 && o != 0x50 {
      FailBeside(s, c, RESPONSE_FAILED, RESPONSE_FAILED, pos);
    }
  }

  lemma WriteBeAlignment(c: AfuCmd)
    ensures AlignmentOf(AddrOf(c), 64) == Aligned <==> AddrOf(c) % 64 == 0
  {
  }

  /** handle_cmd never touches a write being assembled, and keeps its next beat exactly when KeepsBeat says so. */
  lemma CmdBeside(s: State, pos: nat)
    requires DataExpected(s.list) && pos <= |s.list|
    ensures Filling(HandleCmd(s, pos).list) == Filling(s.list)
    ensures HandleCmd(s, pos).cdata == (if s.cmd.None? || KeepsBeat(s, s.cmd.value) then s.cdata else None)
  {
    hide Filling, DataExpected, ParseCmd, HasTag;
    if s.cmd.Some? && !HasTag(s.list, s.cmd.value.afutag) {
      var taken := s.(cmd := None, cdata := None);
      ParseBeside(taken, s.cmd.value, s.cdata, pos);
      KeepsBeatFrame(s, taken, s.cmd.value);
      hide KeepsBeat;
    }
  }

  lemma KeepsBeatFrame(s: State, t: State, c: AfuCmd)
    requires t.list == s.list && t.clients == s.clients
    ensures KeepsBeat(t, c) <==> KeepsBeat(s, c)
  {
  }

  /** A long write that arrives with its first beat while no other is being assembled starts with exactly that beat. */
  lemma WriteStarts(s: State, pos: nat)
    requires s.cmd.Some? && s.cdata.Some? && pos <= |s.list| && !DataExpected(s.list)
    requires var c := s.cmd.value;
      && IsWrite(c.opcode) && !HasTag(s.list, c.afutag) && FindByActag(s.clients, c.actag).Some?
      && AlignmentOf(AddrOf(c), DlToSize(c.dl)) == Aligned && DlToSize(c.dl) > 64
    ensures var t, c := HandleCmd(s, pos), s.cmd.value;
      && t.cdata.None? && Filling(t.list).Some?
      && var e := Filling(t.list).value;
      && e.afutag == c.afutag && e.addr == AddrOf(c) && e.size == DlToSize(c.dl)
      && e.state == Buffer && e.dpartial == 64 && e.beats == [s.cdata.value.bytes]
          && e.data[..64] == s.cdata.value.bytes
  {
    var c := s.cmd.value;
    var context := FindByActag(s.clients, c.actag).value;
    var e := Fill(NewEvent(context, c, CmdWrite, AddrOf(c), DlToSize(c.dl), Idle, 0, WRITE_RESP), s.cdata.value);
    hide HasTag, FindByActag, AddrOf, NewEvent;
    NewWrite(context, c, AddrOf(c), DlToSize(c.dl), s.cdata.value);
    var t := HandleCmd(s, pos);
    assert t == s.(cmd := None, cdata := None, list := Insert(s.list, pos, e));
    hide *;
    OnlyFilling(s.list, pos, e);
  }

  lemma NewWrite(context: nat, c: AfuCmd, addr: U64, size: nat, b: LineBeat)
    requires size > 64
    ensures var e := Fill(NewEvent(context, c, CmdWrite, addr, size, Idle, 0, WRITE_RESP), b);
      && e.afutag == c.afutag && e.addr == addr && e.size == size && Picks(ToFill, e) && e.state == Buffer
      && e.dpartial == 64 && e.beats == [b.bytes] && |e.data| == 256 && e.data[..64] == b.bytes
  {
  }

  lemma OnlyFilling(list: seq<Ev>, pos: nat, e: Ev)
    requires pos <= |list| && !DataExpected(list) && Picks(ToFill, e)
    ensures Filling(Insert(list, pos, e)) == Some(e)
  {
    hide Picks;
    var t := Insert(list, pos, e);
    assert t[pos] == e && forall k :: 0 <= k < pos ==> t[k] == list[k];
  }

  // ---------- the other handlers beside a write ----------

  /** Every step but the two that read data leaves the write and the staged signals alone. */
  lemma StepBeside(cl: nat, s: State, a: Step)
    requires ValidCl(cl) && Inv(cl, s) && Enabled(cl, s, a) && !a.Receive? && !a.Parse? && !a.CmdData?
    ensures var t := Next(cl, s, a); Filling(t.list) == Filling(s.list) && t.cdata == s.cdata && t.cmd == s.cmd
  {
    hide Inv, Filling, HandleBufferWrite, HandleWriteCmd, HandleInterrupt, HandleOperate, HandleAnswer;
    match a {
      case Respond(accept) =>
        var i := First(s.list, ToRespond);
        if i < |s.list| {
          AnswerNotFilling(cl, s.list[i], accept);
          hide Answer, Finish, CanSend;
          ResolveBeside(s, i, Answer(cl, s.list[i], accept));
        }
      case FinishPending(pick, w, ok) =>
        if pick.Some? {
          hide Answer, CanSend;
          ResolveBeside(s, pick.value, Finish(s.list[pick.value], w, ok));
        }
      case ClientAnswer(context, ok, bytes) => AnswerBeside(cl, s, context, ok, bytes);
      case Attach(_, _, _) =>
      case BufferWrite(w) => ReadBeside(s, w);
      case WriteCmd(w) => WriteBeside(s, w);
      case Interrupt(w) => InterruptStepBeside(s, w);
      case Operate(w) => OperateBeside(s, w);
    }
  }

  lemma AnswerNotFilling(cl: nat, e: Ev, accept: bool)
    requires CanSend(cl, e) && Picks(ToRespond, e)
    ensures !Picks(ToFill, Answer(cl, e, accept).e)
  {
  }

  lemma ResolveBeside(s: State, i: nat, f: Fate)
    requires i < |s.list| && !Picks(ToFill, s.list[i]) && !Picks(ToFill, f.e)
    ensures var t := Resolve(s, i, f); Filling(t.list) == Filling(s.list) && t.cdata == s.cdata && t.cmd == s.cmd
  {
    FillingAfterReplace(s.list, i, f.e);
    FillingAfterRemove(s.list, i);
  }

  lemma AnswerBeside(cl: nat, s: State, context: nat, ok: bool, bytes: seq<Byte>)
    requires ValidCl(cl) && Inv(cl, s) && CanAnswer(s, context, ok, bytes)
    ensures var t := HandleAnswer(s, context, ok, bytes);
      Filling(t.list) == Filling(s.list) && t.cdata == s.cdata && t.cmd == s.cmd
  {
    var a := s.clients[context].value.access;
    if a.Some? {
      AccessedEvent(cl, s, context);
      var i := TagIndex(s.list, a.value);
      var e := s.list[i];
      FillingAfterReplace(s.list, i, if ok then MemReturn(e, bytes) else Aerror(e));
      hide Inv, Filling;
    }
  }

  lemma ReadBeside(s: State, w: Allow)
    ensures var t := HandleBufferWrite(s, w); Filling(t.list) == Filling(s.list) && t.cdata == s.cdata && t.cmd == s.cmd
  {
    var i := First(s.list, ToRead);
    if i < |s.list| {
      FillingAfterReplace(s.list, i, HandleBufferWrite(s, w).list[i]);
      hide Filling;
    }
  }

  lemma WriteBeside(s: State, w: Allow)
    requires forall e :: e in s.list && Picks(ToWrite, e) ==> CanWrite(e)
    ensures var t := HandleWriteCmd(s, w); Filling(t.list) == Filling(s.list) && t.cdata == s.cdata && t.cmd == s.cmd
  {
    var i := First(s.list, ToWrite);
    if i < |s.list| {
      FillingAfterReplace(s.list, i, HandleWriteCmd(s, w).list[i]);
      hide Filling;
    }
  }

  lemma InterruptStepBeside(s: State, w: Allow)
    requires CanInterrupt(s, w)
    ensures var t := HandleInterrupt(s, w); Filling(t.list) == Filling(s.list) && t.cdata == s.cdata && t.cmd == s.cmd
  {
    var i := First(s.list, ToInterrupt);
    if i < |s.list| {
      FillingAfterReplace(s.list, i, AfterInterrupt(s.list[i], w));
    }
  }

  lemma OperateBeside(s: State, w: Allow)
    requires forall e :: e in s.list && Picks(ToOperate, e) ==> CanOperate(e)
    ensures var t := HandleOperate(s, w); Filling(t.list) == Filling(s.list) && t.cdata == s.cdata && t.cmd == s.cmd
  {
    var i := First(s.list, ToOperate);
    if i < |s.list| {
      FillingAfterReplace(s.list, i, HandleOperate(s, w).list[i]);
      hide Filling;
    }
  }

  // ---------- passes of _handle_afu ----------

  /** What the AFU sends with one clock, and every choice made while it is handled. */
  datatype Input = Input(cmd: Option<AfuCmd>, cdata: Option<LineBeat>,
                         accept: bool, read: Allow, pick: nat, posted: Allow, ok: bool, pos: nat,
                         write: Allow, intr: Allow, op: Allow)

  /** What _handle_client hands the engine: an application's answer, or a new client. */
  datatype Visit = Answers(context: nat, ok: bool, bytes: seq<Byte>) | Attaches(slot: nat, bdf: U16, pasid: U32)

  function StepOf(v: Visit): Step {
    match v
    case Answers(context, ok, bytes) => ClientAnswer(context, ok, bytes)
    case Attaches(slot, bdf, pasid) => Attach(slot, bdf, pasid)
  }

  /** One round of the loop of ocse/ocl.c: a pass over the engine, then any number of client events. */
  datatype Round = Round(input: Input, visits: seq<Visit>)

  /** A handler step; HandlersDefined shows that the guard holds back nothing but an interrupt too long for its
      message. */
  function Take(cl: nat, s: State, a: Step): (t: State)
    requires ValidCl(cl)
  {
    if Enabled(cl, s, a) then Next(cl, s, a) else s
  }

  lemma TakeInv(cl: nat, s: State, a: Step)
    requires ValidCl(cl) && Inv(cl, s)
    ensures Inv(cl, Take(cl, s, a))
  {
    hide Inv, Enabled, Next;
    if Enabled(cl, s, a) {
      NextInv(cl, s, a);
    }
  }

  /** _handle_afu up to handle_cmd: the staged beat is still where the packet put it. */
  function Before(cl: nat, s: State, n: Input): State
    requires ValidCl(cl)
  {
    var s1 := Take(cl, Take(cl, s, Receive(n.cmd, n.cdata)), Respond(n.accept));
    var s2 := Take(cl, s1, BufferWrite(n.read));
    Take(cl, s2, FinishPending(if Pickable(s2, Some(n.pick)) then Some(n.pick) else None, n.posted, n.ok))
  }

  function AtData(cl: nat, s: State, n: Input): State
    requires ValidCl(cl)
  {
    var b := Before(cl, s, n);
    Take(cl, b, Parse(if n.pos <= |b.list| then n.pos else |b.list|))
  }

  function AfterData(cl: nat, s: State, n: Input): State
    requires ValidCl(cl)
  {
    Take(cl, AtData(cl, s, n), CmdData)
  }

  /** One clock handled: the nine handlers in the order of _handle_afu. */
  function Pass(cl: nat, s: State, n: Input): State
    requires ValidCl(cl)
  {
    Take(cl, Take(cl, Take(cl, AfterData(cl, s, n), WriteCmd(n.write)), Interrupt(n.intr)), Operate(n.op))
  }

  /** The beat of this clock is not thrown away by the command of this clock. */
  predicate BeatKept(cl: nat, s: State, n: Input)
    requires ValidCl(cl)
  {
    n.cdata.None? || n.cmd.None? || KeepsBeat(Before(cl, s, n), n.cmd.value)
  }

  lemma TakeBeside(cl: nat, s: State, a: Step)
    requires ValidCl(cl) && Inv(cl, s) && !a.Receive? && !a.Parse? && !a.CmdData?
    ensures var t := Take(cl, s, a);
      Inv(cl, t) && Filling(t.list) == Filling(s.list) && t.cdata == s.cdata && t.cmd == s.cmd
  {
    TakeInv(cl, s, a);
    hide Inv, Enabled, Next, Filling;
    if Enabled(cl, s, a) {
      StepBeside(cl, s, a);
    }
  }

  lemma BeforeBeside(cl: nat, s: State, n: Input)
    requires ValidCl(cl) && Inv(cl, s)
    ensures var b := Before(cl, s, n);
      Inv(cl, b) && Filling(b.list) == Filling(s.list) && b.cdata == n.cdata && b.cmd == n.cmd
  {
    var s0 := Take(cl, s, Receive(n.cmd, n.cdata));
    assert s0 == s.(cmd := n.cmd, cdata := n.cdata);
    TakeInv(cl, s, Receive(n.cmd, n.cdata));
    hide Inv, Take, Filling, Pickable;
    TakeBeside(cl, s0, Respond(n.accept));
    var s1 := Take(cl, s0, Respond(n.accept));
    TakeBeside(cl, s1, BufferWrite(n.read));
    var s2 := Take(cl, s1, BufferWrite(n.read));
    TakeBeside(cl, s2, FinishPending(if Pickable(s2, Some(n.pick)) then Some(n.pick) else None, n.posted, n.ok));
  }

  lemma TakeParse(cl: nat, b: State, pos: nat)
    requires ValidCl(cl) && pos <= |b.list|
    ensures Take(cl, b, Parse(pos)) == HandleCmd(b, pos)
  {
  }

  lemma AtDataBeside(cl: nat, s: State, n: Input)
    requires ValidCl(cl) && Inv(cl, s) && Filling(s.list).Some?
    ensures var d := AtData(cl, s, n);
      && Inv(cl, d) && Filling(d.list) == Filling(s.list)
      && d.cdata == (if BeatKept(cl, s, n) then n.cdata else None)
  {
    BeforeBeside(cl, s, n);
    var b := Before(cl, s, n);
    var pos := if n.pos <= |b.list| then n.pos else |b.list|;
    assert DataExpected(b.list);
    hide Inv, Filling, Before, KeepsBeat, Take, HandleCmd, DataExpected;
    TakeInv(cl, b, Parse(pos));
    TakeParse(cl, b, pos);
    CmdBeside(b, pos);
  }

  lemma DataGathers(d: State, e: Ev)
    requires Filling(d.list) == Some(e) && forall k :: k in d.list && Picks(ToFill, k) ==> CanFill(k)
    ensures CanFill(e)
    ensures d.cdata.None? ==> HandleCmdData(d) == d
    ensures d.cdata.Some? ==> var t, g := HandleCmdData(d), Gather(e, d.cdata.value);
      g in t.list && t.cdata.None? && (g.state == Buffer ==> Filling(t.list) == Some(g))
  {
    var i := First(d.list, ToFill);
    assert d.list[i] == e && e in d.list;
    if d.cdata.Some? {
      var t := HandleCmdData(d);
      var g := Gather(e, d.cdata.value);
      assert t.list[i] == g && g.typ == e.typ;
      hide Gather, CanFill;
      assert forall k :: 0 <= k < i ==> t.list[k] == d.list[k];
    }
  }

  /** One clock: a write being assembled gains exactly the beat that came, if one came and was kept, and is
      otherwise untouched. */
  lemma PassGathers(cl: nat, s: State, n: Input, e: Ev)
    requires ValidCl(cl) && Inv(cl, s) && Filling(s.list) == Some(e)
    ensures n.cdata.None? || !BeatKept(cl, s, n) ==> Filling(AfterData(cl, s, n).list) == Some(e)
    ensures CanFill(e)
    ensures n.cdata.Some? && BeatKept(cl, s, n) ==>
      var t, g := AfterData(cl, s, n), Gather(e, n.cdata.value);
      g in t.list && t.cdata.None? && (g.state == Buffer ==> Filling(t.list) == Some(g))
    ensures Inv(cl, AfterData(cl, s, n))
  {
    AtDataBeside(cl, s, n);
    var d := AtData(cl, s, n);
    TakeInv(cl, d, CmdData);
    CmdDataInv(cl, d);
    DataGathers(d, e);
    TakeData(cl, d);
    hide *;
    AfterDataIs(cl, s, n);
  }

  lemma TakeData(cl: nat, d: State)
    requires ValidCl(cl) && forall k :: k in d.list && Picks(ToFill, k) ==> CanFill(k)
    ensures Take(cl, d, CmdData) == HandleCmdData(d)
  {
  }

  lemma AfterDataIs(cl: nat, s: State, n: Input)
    requires ValidCl(cl)
    ensures AfterData(cl, s, n) == Take(cl, AtData(cl, s, n), CmdData)
  {
  }

  lemma PassEnd(cl: nat, s: State, n: Input)
    requires ValidCl(cl) && Inv(cl, AfterData(cl, s, n))
    ensures Inv(cl, Pass(cl, s, n)) && Filling(Pass(cl, s, n).list) == Filling(AfterData(cl, s, n).list)
  {
    var d := AfterData(cl, s, n);
    hide Inv, AfterData, Take, Filling;
    TakeBeside(cl, d, WriteCmd(n.write));
    TakeBeside(cl, Take(cl, d, WriteCmd(n.write)), Interrupt(n.intr));
    TakeBeside(cl, Take(cl, Take(cl, d, WriteCmd(n.write)), Interrupt(n.intr)), Operate(n.op));
  }

  // ---------- many clocks ----------

  /** The client events between two passes. */
  function Visited(cl: nat, s: State, visits: seq<Visit>): State
    requires ValidCl(cl)
  {
    if visits == [] then s
    else Take(cl, Visited(cl, s, visits[..|visits| - 1]), StepOf(visits[|visits| - 1]))
  }

  lemma {:induction false} VisitsBeside(cl: nat, s: State, visits: seq<Visit>)
    requires ValidCl(cl) && Inv(cl, s)
    ensures var t := Visited(cl, s, visits); Inv(cl, t) && Filling(t.list) == Filling(s.list)
  {
    hide Inv, Filling, Take;
    if visits != [] {
      VisitsBeside(cl, s, visits[..|visits| - 1]);
      TakeBeside(cl, Visited(cl, s, visits[..|visits| - 1]), StepOf(visits[|visits| - 1]));
    }
  }

  function Turn(cl: nat, s: State, r: Round): State
    requires ValidCl(cl)
  {
    Visited(cl, Pass(cl, s, r.input), r.visits)
  }

  lemma TurnEnd(cl: nat, s: State, r: Round)
    requires ValidCl(cl) && Inv(cl, AfterData(cl, s, r.input))
    ensures Inv(cl, Turn(cl, s, r)) && Filling(Turn(cl, s, r).list) == Filling(AfterData(cl, s, r.input).list)
  {
    hide Inv, Filling, Pass, Visited, AfterData;
    PassEnd(cl, s, r.input);
    VisitsBeside(cl, Pass(cl, s, r.input), r.visits);
  }

  function Turns(cl: nat, s: State, rs: seq<Round>): State
    requires ValidCl(cl)
  {
    if rs == [] then s else Turn(cl, Turns(cl, s, rs[..|rs| - 1]), rs[|rs| - 1])
  }

  predicate AllKept(cl: nat, s: State, rs: seq<Round>)
    requires ValidCl(cl)
  {
    rs == [] || (AllKept(cl, s, rs[..|rs| - 1]) && BeatKept(cl, Turns(cl, s, rs[..|rs| - 1]), rs[|rs| - 1].input))
  }

  /** The beats of those clocks that brought one. */
  function Beats(rs: seq<Round>): seq<Line> {
    if rs == [] then []
    else
      var b := rs[|rs| - 1].input.cdata;
      Beats(rs[..|rs| - 1]) + if b.Some? then [b.value.bytes] else []
  }

  /** The write e with more of its beats. */
  predicate Grew(e: Ev, g: Ev, more: seq<Line>) {
    && g.afutag == e.afutag && g.context == e.context && g.typ == e.typ && g.addr == e.addr && g.size == e.size
    && g.beats == e.beats + more
  }

  lemma FillingShape(cl: nat, s: State, e: Ev)
    requires ValidCl(cl) && Inv(cl, s) && Filling(s.list) == Some(e)
    ensures Shape(cl, e) && Gathering(e) && Picks(ToFill, e)
  {
  }

  /** Over any number of clocks, with any idle clocks, any overlapping commands that keep the beat and anything the
      applications do in between, the write gains exactly the beats that came, in order. */
  lemma {:induction false} BeatsGather(cl: nat, s: State, rs: seq<Round>, e: Ev)
    requires ValidCl(cl) && Inv(cl, s) && Filling(s.list) == Some(e) && AllKept(cl, s, rs)
    requires 64 * (|e.beats| + |Beats(rs)|) < e.size
    ensures Inv(cl, Turns(cl, s, rs))
    ensures var f := Filling(Turns(cl, s, rs).list); f.Some? && Grew(e, f.value, Beats(rs))
  {
    hide Inv, Filling, Turn, BeatKept, Shape, AfterData;
    if rs == [] {
      assert e.beats + [] == e.beats;
    } else {
      var front, r := rs[..|rs| - 1], rs[|rs| - 1];
      BeatsGather(cl, s, front, e);
      var t := Turns(cl, s, front);
      var f := Filling(t.list).value;
      FillingShape(cl, t, f);
      PassGathers(cl, t, r.input, f);
      TurnEnd(cl, t, r);
      if r.input.cdata.Some? {
        var b := r.input.cdata.value;
        GatherShape(cl, f, b);
        GatherGrows(f, b);
        assert f.beats + [b.bytes] == e.beats + Beats(rs);
      } else {
        assert Beats(rs) == Beats(front);
      }
    }
  }

  lemma GatherGrows(e: Ev, b: LineBeat)
    requires CanFill(e)
    ensures Grew(e, Gather(e, b), [b.bytes])
    ensures Gather(e, b).state == (if e.size - e.dpartial > 64 then e.state else Received)
  {
  }

  const NOP := AfuCmd(0, 0, 0, [0, 0, 0, 0, 0, 0, 0, 0, 0], 0, 0, 0, 0, 0, 0, 0, 0, 0)

  lemma NopKeepsNoBeat(s: State, c: AfuCmd)
    requires c.opcode == 0
    ensures !KeepsBeat(s, c)
  {
    hide HasTag, FindByActag, AlignmentOf, AddrOf, AmoBadSize;
  }

  /** The failing input: of two beats on successive clocks the first comes with a NOP. It is dropped, and the second
      takes its place in the write. */
  lemma NopDropsBeat(cl: nat, s: State, e: Ev, first: Round, second: Round)
    requires ValidCl(cl) && Inv(cl, s) && Filling(s.list) == Some(e) && 64 * (|e.beats| + 2) <= e.size
    requires first.input.cmd == Some(NOP) && first.input.cdata.Some?
    requires second.input.cmd == None && second.input.cdata.Some?
    ensures !BeatKept(cl, s, first.input)
    ensures var f := Filling(Turn(cl, Turn(cl, s, first), second).list);
      f.Some? && Grew(e, f.value, [second.input.cdata.value.bytes])
  {
    NopKeepsNoBeat(Before(cl, s, first.input), NOP);
    FillingShape(cl, s, e);
    PassGathers(cl, s, first.input, e);
    TurnEnd(cl, s, first);
    var t := Turn(cl, s, first);
    PassGathers(cl, t, second.input, e);
    TurnEnd(cl, t, second);
    hide Inv, Filling, Turn, AfterData;
    GatherGrows(e, second.input.cdata.value);
  }

  /** When the last beat comes the write is received, and its data is all of its beats in order. */
  lemma WriteAssembled(cl: nat, s: State, rs: seq<Round>, last: Round, e: Ev) returns (w: Ev)
    requires ValidCl(cl) && Inv(cl, s) && Filling(s.list) == Some(e) && AllKept(cl, s, rs + [last])
    requires last.input.cdata.Some? && 64 * (|e.beats| + |Beats(rs)| + 1) == e.size
    ensures w in AfterData(cl, Turns(cl, s, rs), last.input).list && w.state == Received
    ensures Grew(e, w, Beats(rs) + [last.input.cdata.value.bytes])
    ensures w.size <= |w.data| && w.data[..w.size] == Flatten(e.beats + Beats(rs) + [last.input.cdata.value.bytes])
  {
    assert (rs + [last])[..|rs|] == rs;
    hide Inv, Filling, Turn, BeatKept;
    var b := last.input.cdata.value;
    BeatsGather(cl, s, rs, e);
    var t := Turns(cl, s, rs);
    var f := Filling(t.list).value;
    FillingShape(cl, t, f);
    PassGathers(cl, t, last.input, f);
    GatherShape(cl, f, b);
    GatherGrows(f, b);
    w := Gather(f, b);
    assert f.beats + [b.bytes] == e.beats + (Beats(rs) + [b.bytes]);
    assert e.beats + Beats(rs) + [b.bytes] == w.beats;
  }

  // ---------- the request ----------

  /** The bytes of a write request are the beats gathered: all of them, or of a partial write the part of its one
      beat that its address points at, which never leaves the line. */
  lemma RequestBytes(cl: nat, s: State, w: Allow)
    requires ValidCl(cl) && Inv(cl, s) && First(s.list, ToWrite) < |s.list|
    requires Free(s, s.list[First(s.list, ToWrite)].context) && Refusal(w).None?
    ensures forall e :: e in s.list && Picks(ToWrite, e) ==> CanWrite(e)
    ensures var e := s.list[First(s.list, ToWrite)];
      var t := HandleWriteCmd(s, w);
      && (e.size >= 64 ==> t.asked == s.asked + [WriteReq(e.context, e.afutag, e.addr, Flatten(e.beats))])
      && (e.size < 64 ==> |e.beats| == 1 && e.addr % 64 + e.size <= 64)
      && (e.size < 64 ==>
            t.asked == s.asked + [WriteReq(e.context, e.afutag, e.addr, e.beats[0][e.addr % 64..e.addr % 64 + e.size])])
  {
    WriteCmdInv(cl, s, w);
    var e := s.list[First(s.list, ToWrite)];
    assert Shape(cl, e) && Assembled(e);
    if e.size > 64 {
      assert WrittenBytes(e) == Flatten(e.beats);
    } else if e.size == 64 {
      FlattenSingle(e.beats[0]);
      assert e.beats == [e.beats[0]];
    } else {
      PartialInLine(e.addr, e.size);
      assert WrittenBytes(e) == e.data[..64][e.addr % 64..e.addr % 64 + e.size];
    }
  }
}
