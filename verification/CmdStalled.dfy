/** Commands that wait for data which never reaches them (ocse/cmd.c): _add_cmd gives a command the beat that came with
    it, or none, and no handler gives it one later. */
module CmdStalled {
  import opened Common
  import opened TlxPacket
  import opened CmdEngine
  import opened CmdInvariant
  import opened CmdTheorems
  import opened CmdAssembly
  import opened CmdInputs

  /** The types whose handlers select a command only once its first beat has been copied. */
  predicate NeedsBeat(typ: CmdType) {
    typ in {CmdWrite, CmdWrBe, CmdAmoRd, CmdAmoRw, CmdAmoWr}
  }

  predicate Stalled(e: Ev) {
    NeedsBeat(e.typ) && e.state == Idle
  }

  lemma NeverPicked(e: Ev)
    requires Stalled(e)
    ensures e.state != PendingSent && !Accessed(e) && forall k :: !Picks(k, e)
  {
  }

  /** In every state that keeps the invariant a command on the list is stalled if and only if no handler can ever select
      it and no application owes it an answer: nothing but a missing first beat leaves a command behind. */
  lemma StalledExactly(cl: nat, s: State, e: Ev)
    requires ValidCl(cl) && Inv(cl, s) && e in s.list
    ensures Stalled(e) <==> e.state != PendingSent && !Accessed(e) && forall k :: !Picks(k, e)
  {
    assert Shape(cl, e);
    if !Stalled(e) && e.state != PendingSent && !Accessed(e) {
      var k := match e.state
        case Idle => if e.typ == CmdRead then ToRead else ToInterrupt
        case Buffer => ToFill
        case Received => if e.typ == CmdWrite then ToWrite else ToInterrupt
        case _ => ToRespond;
      assert Picks(k, e);
    }
  }

  // ---------- no handler touches it ----------

  lemma KeptBeside(s: State, t: State, i: nat, n: Ev, e: Ev)
    requires i < |s.list| && e in s.list && s.list[i] != e
    requires t.list == s.list[i := n] || t.list == Remove(s.list, i)
    ensures e in t.list
  {
    var j :| 0 <= j < |s.list| && s.list[j] == e;
    if t.list == s.list[i := n] {
      assert t.list[j] == e;
    } else {
      assert t.list[if j < i then j else j - 1] == e;
    }
  }

  lemma KeptInserted(list: seq<Ev>, pos: nat, n: Ev, e: Ev)
    requires pos <= |list| && e in list
    ensures e in Insert(list, pos, n)
  {
    assert list == list[..pos] + list[pos..];
  }

  lemma StepLeavesStalled(cl: nat, s: State, a: Step, e: Ev)
    requires ValidCl(cl) && Inv(cl, s) && Enabled(cl, s, a) && e in s.list && Stalled(e)
    ensures e in Next(cl, s, a).list
  {
    NeverPicked(e);
    hide Inv, Stalled, Picks, Accessed, HandleCmd, HandleAnswer, HandleBufferWrite, HandleCmdData, HandleWriteCmd,
      HandleInterrupt, HandleOperate, Answer, Finish, CanSend;
    match a {
      case Respond(accept) =>
        var i := First(s.list, ToRespond);
        if i < |s.list| {
          KeptBeside(s, Next(cl, s, a), i, Answer(cl, s.list[i], accept).e, e);
        }
      case FinishPending(pick, w, ok) =>
        if pick.Some? {
          KeptBeside(s, Next(cl, s, a), pick.value, Finish(s.list[pick.value], w, ok).e, e);
        }
      case Parse(pos) => ParseLeavesStalled(s, pos, e);
      case ClientAnswer(context, ok, bytes) => ClientLeavesStalled(cl, s, context, ok, bytes, e);
      case BufferWrite(w) => ReadLeavesStalled(s, w, e);
      case CmdData => DataLeavesStalled(s, e);
      case WriteCmd(w) => WriteLeavesStalled(s, w, e);
      case Interrupt(w) => IntrLeavesStalled(s, w, e);
      case Operate(w) => OperateLeavesStalled(s, w, e);
      case _ =>
    }
  }

  lemma ParseLeavesStalled(s: State, pos: nat, e: Ev)
    requires pos <= |s.list| && e in s.list
    ensures e in HandleCmd(s, pos).list
  {
    hide HasTag, ParseCmd;
    if s.cmd.Some? && !HasTag(s.list, s.cmd.value.afutag) {
      OnlyInserts(s.(cmd := None, cdata := None), s.cmd.value, s.cdata, pos, e);
    }
  }

  /** _parse_cmd only ever adds to the list. */
  lemma OnlyInserts(s: State, c: AfuCmd, beat: Option<LineBeat>, pos: nat, e: Ev)
    requires pos <= |s.list| && e in s.list
    ensures e in ParseCmd(s, c, beat, pos).list
  {
    hide HasTag, FindByActag, AlignmentOf, AddrOf, AmoBadSize, NewEvent, Fill, Insert, DataExpected, AssignActag;
    forall n: Ev ensures e in Insert(s.list, pos, n) {
      KeptInserted(s.list, pos, n, e);
    }
  }

  lemma ClientLeavesStalled(cl: nat, s: State, context: nat, ok: bool, bytes: seq<Byte>, e: Ev)
    requires ValidCl(cl) && Inv(cl, s) && CanAnswer(s, context, ok, bytes) && e in s.list && !Accessed(e)
    ensures e in HandleAnswer(s, context, ok, bytes).list
  {
    var a := s.clients[context].value.access;
    if a.Some? {
      AccessedEvent(cl, s, context);
      var i := TagIndex(s.list, a.value);
      hide Inv, MemReturn, Aerror, Accessed;
      KeptBeside(s, HandleAnswer(s, context, ok, bytes), i,
          if ok then MemReturn(s.list[i], bytes) else Aerror(s.list[i]), e);
    }
  }

  lemma ReadLeavesStalled(s: State, w: Allow, e: Ev)
    requires e in s.list && !Picks(ToRead, e)
    ensures e in HandleBufferWrite(s, w).list
  {
    var i := First(s.list, ToRead);
    if i < |s.list| {
      KeptBeside(s, HandleBufferWrite(s, w), i, HandleBufferWrite(s, w).list[i], e);
    }
  }

  lemma DataLeavesStalled(s: State, e: Ev)
    requires e in s.list && !Picks(ToFill, e) && forall k :: k in s.list && Picks(ToFill, k) ==> CanFill(k)
    ensures e in HandleCmdData(s).list
  {
    var i := First(s.list, ToFill);
    if i < |s.list| {
      KeptBeside(s, HandleCmdData(s), i, HandleCmdData(s).list[i], e);
    }
  }

  lemma WriteLeavesStalled(s: State, w: Allow, e: Ev)
    requires e in s.list && !Picks(ToWrite, e) && forall k :: k in s.list && Picks(ToWrite, k) ==> CanWrite(k)
    ensures e in HandleWriteCmd(s, w).list
  {
    var i := First(s.list, ToWrite);
    if i < |s.list| {
      KeptBeside(s, HandleWriteCmd(s, w), i, HandleWriteCmd(s, w).list[i], e);
    }
  }

  lemma IntrLeavesStalled(s: State, w: Allow, e: Ev)
    requires e in s.list && !Picks(ToInterrupt, e) && CanInterrupt(s, w)
    ensures e in HandleInterrupt(s, w).list
  {
    var i := First(s.list, ToInterrupt);
    if i < |s.list| {
      hide NoticeBytes, AfterInterrupt;
      KeptBeside(s, HandleInterrupt(s, w), i, AfterInterrupt(s.list[i], w), e);
    }
  }

  lemma OperateLeavesStalled(s: State, w: Allow, e: Ev)
    requires e in s.list && !Picks(ToOperate, e) && forall k :: k in s.list && Picks(ToOperate, k) ==> CanOperate(k)
    ensures e in HandleOperate(s, w).list
  {
    var i := First(s.list, ToOperate);
    if i < |s.list| {
      KeptBeside(s, HandleOperate(s, w), i, HandleOperate(s, w).list[i], e);
    }
  }

  lemma StalledUnanswered(cl: nat, s: State, e: Ev)
    requires ValidCl(cl) && Inv(cl, s) && e in s.list && Stalled(e)
    ensures e.hist == []
  {
    assert Shape(cl, e);
  }

  /** In every run a stalled command stays on the list as it is, unanswered, for ever. */
  lemma {:induction false} StalledForever(cl: nat, maxClients: nat, states: seq<State>, steps: seq<Step>, n: nat,
      m: nat, e: Ev)
    requires ValidCl(cl) && Run(cl, maxClients, states, steps) && n <= m < |states|
    requires e in states[n].list && Stalled(e)
    ensures e in states[m].list && e.hist == []
    decreases m - n
  {
    hide Inv, Next, Enabled, Stalled;
    if n < m {
      StalledForever(cl, maxClients, states, steps, n, m - 1, e);
      RunInv(cl, maxClients, states, steps, m - 1);
      StepLeavesStalled(cl, states[m - 1], steps[m - 1], e);
    } else {
      RunInv(cl, maxClients, states, steps, n);
      StalledUnanswered(cl, states[n], e);
    }
  }

  // ---------- when a command stalls ----------

  /** handle_cmd is about to add a command that brings data. */
  predicate Admits(s: State) {
    && s.cmd.Some?
    && var c := s.cmd.value;
    PassesChecks(c) && !HasTag(s.list, c.afutag) && FindByActag(s.clients, c.actag).Some?
  }

  ghost predicate NewlyStalled(s: State, t: State) {
    exists e :: e in t.list && e !in s.list && Stalled(e)
  }

  lemma InsertStalled(s: State, t: State, pos: nat, n: Ev)
    requires pos <= |s.list| && n !in s.list && t.list == Insert(s.list, pos, n)
    ensures NewlyStalled(s, t) <==> Stalled(n)
  {
    hide Stalled;
    assert s.list == s.list[..pos] + s.list[pos..];
    assert n in t.list;
  }

  lemma FoundStalled(s: State, c: AfuCmd, typ: CmdType, addr: U64, size: nat, state: MemState, resp: Byte, opcode: Byte,
                     beat: Option<LineBeat>, pos: nat)
    requires pos <= |s.list| && !HasTag(s.list, c.afutag)
    ensures NewlyStalled(s, AddFound(s, c, typ, addr, size, state, resp, opcode, beat, pos))
      <==> FindByActag(s.clients, c.actag).Some? && NeedsBeat(typ) && state == Idle
           && (beat.None? || DataExpected(s.list))
  {
    var f := FindByActag(s.clients, c.actag);
    hide FindByActag, DataExpected;
    if f.Some? {
      var e := NewEvent(f.value, c, typ, addr, size, state, resp, opcode);
      assert e.afutag == c.afutag && (Stalled(e) <==> NeedsBeat(typ) && state == Idle);
      if beat.None? || DataExpected(s.list) {
        hide NewEvent, Stalled, NeedsBeat;
        InsertStalled(s, AddCmd(s, e, beat, pos), pos, e);
      } else {
        var n := Fill(e, beat.value);
        assert n.afutag == e.afutag && !Stalled(n);
        hide NewEvent, Stalled, NeedsBeat, Fill;
        InsertStalled(s, AddCmd(s, e, beat, pos), pos, n);
      }
    }
  }

  lemma FailStalled(s: State, c: AfuCmd, resp: Byte, opcode: Byte, pos: nat)
    requires pos <= |s.list| && !HasTag(s.list, c.afutag)
    ensures !NewlyStalled(s, AddFail(s, c, resp, opcode, pos))
  {
    hide AddFound, HasTag, NewlyStalled;
    FoundStalled(s, c, CmdFailed, 0, 0, Done, resp, opcode, None, pos);
  }

  lemma CheckedStalled(s: State, c: AfuCmd, typ: CmdType, size: int, eventSize: int, state: MemState, failed: Byte,
      ok: Byte, beat: Option<LineBeat>, pos: nat)
    requires pos <= |s.list| && (size == -1 || size > 0) && (size > 0 ==> eventSize >= 0) && !HasTag(s.list, c.afutag)
    ensures NewlyStalled(s, AddChecked(s, c, typ, size, eventSize, state, failed, ok, beat, pos))
      <==> AlignmentOf(AddrOf(c), size) == Aligned && FindByActag(s.clients, c.actag).Some? && NeedsBeat(typ)
           && state == Idle && (beat.None? || DataExpected(s.list))
  {
    hide AddFound, AddFail, AddrOf, FindByActag, HasTag, NewlyStalled, DataExpected, NeedsBeat;
    var a := AlignmentOf(AddrOf(c), size);
    hide AlignmentOf;
    if a == Aligned {
      FoundStalled(s, c, typ, AddrOf(c), eventSize, state, 0, ok, beat, pos);
    } else {
      FailStalled(s, c, if a == BadSize then 0x09 else 0x0b, failed, pos);
    }
  }

  lemma AmoStalled(s: State, c: AfuCmd, beat: Option<LineBeat>, pos: nat)
    requires pos <= |s.list| && !HasTag(s.list, c.afutag)
    ensures NewlyStalled(s, AddAmo(s, c, beat, pos))
      <==> AmoBadSize(c).None? && AddrOf(c) % (if c.pl in {2, 6} then 4 else 8) == 0
           && FindByActag(s.clients, c.actag).Some? && (beat.None? || DataExpected(s.list))
  {
    hide AddFound, AddFail, AddrOf, FindByActag, HasTag, NewlyStalled, DataExpected, AmoBadSize;
    var asRead := IsAmoRw(c.opcode) || c.opcode == 0x38;
    if AmoBadSize(c).Some? {
      FailStalled(s, c, 0x09, AmoBadSize(c).value, pos);
    }
    FailStalled(s, c, 0x0b, if asRead then READ_FAILED else WRITE_FAILED, pos);
    FoundStalled(s, c, AmoType(c.opcode), AddrOf(c), if c.pl in {2, 6} then 4 else 8, Idle, 0,
                 if asRead then READ_RESP else WRITE_RESP, beat, pos);
  }

  lemma SignalStalled(s: State, c: AfuCmd, size: int, beat: Option<LineBeat>, pos: nat)
    requires pos <= |s.list| && !HasTag(s.list, c.afutag) && size >= -1
    ensures !NewlyStalled(s, AddInterrupt(s, c, size, beat, pos))
  {
    hide AddFound, AddrOf, FindByActag, HasTag, NewlyStalled, DataExpected;
    var wake := c.opcode == 0x5c;
    FoundStalled(s, c, if wake then CmdWake else CmdInterrupt, AddrOf(c), if size == -1 then 65535 else size, Idle, 0,
                 if wake then WAKE_RESP else INTRP_RESP, beat, pos);
  }

  lemma ParseStalled(s: State, c: AfuCmd, beat: Option<LineBeat>, pos: nat)
    requires pos <= |s.list| && !HasTag(s.list, c.afutag) && s.cdata.None?
    ensures NewlyStalled(s, ParseCmd(s, c, beat, pos))
      <==> PassesChecks(c) && FindByActag(s.clients, c.actag).Some? && (beat.None? || DataExpected(s.list))
  {
    var r := s.(cdata := beat);
    var o := c.opcode;
    hide AddChecked, AddAmo, AddInterrupt, AddFail, DataExpected, FindByActag, HasTag, AmoBadSize, AlignmentOf, AddrOf,
      Stalled;
    if IsRead(o) {
      CheckedStalled(r, c, CmdRead, DlToSize(c.dl), DlToSize(c.dl), Idle, READ_FAILED, READ_RESP, None, pos);
    } else if IsPartialRead(o) {
      CheckedStalled(r, c, CmdRead, PlToSize(c.pl), PlToSize(c.pl), Idle, READ_FAILED, READ_RESP, None, pos);
    } else if IsWrite(o) {
      CheckedStalled(s, c, CmdWrite, DlToSize(c.dl), DlToSize(c.dl), Idle, WRITE_FAILED, WRITE_RESP, beat, pos);
    } else if IsPartialWrite(o) {
      CheckedStalled(s, c, CmdWrite, PlToSize(c.pl), PlToSize(c.pl), Idle, WRITE_FAILED, WRITE_RESP, beat, pos);
    } else if IsWriteBe(o) {
      CheckedStalled(s, c, CmdWrBe, 64, 64, Idle, WRITE_FAILED, WRITE_RESP, beat, pos);
      WriteBeAlignment(c);
    } else if IsAmoRd(o) || IsAmoRw(o) || IsAmoW(o) {
      AmoStalled(s, c, beat, pos);
    } else if IsInterrupt(o) {
      SignalStalled(s, c, if o == 0x5a then PlToSize(c.pl) else 0, beat, pos);
    } else if IsTouch(o) {
      CheckedStalled(r, c, CmdTouch, 64, 0, Done, TOUCH_RESP, TOUCH_RESP, None, pos);
    } else if o != 0 && o != 0x50 {
      FailStalled(s, c, RESPONSE_FAILED, RESPONSE_FAILED, pos);
    }
  }

  /** handle_cmd adds a command that stalls if and only if the command brings data, is accepted, and its first beat did
      not come with it or another write was still being assembled. */
  lemma StallsExactly(s: State, pos: nat)
    requires pos <= |s.list|
    ensures NewlyStalled(s, HandleCmd(s, pos)) <==> Admits(s) && (s.cdata.None? || DataExpected(s.list))
  {
    hide ParseCmd, PassesChecks, HasTag, FindByActag, DataExpected, Stalled;
    if s.cmd.Some? && !HasTag(s.list, s.cmd.value.afutag) {
      ParseStalled(s.(cmd := None, cdata := None), s.cmd.value, s.cdata, pos);
    }
  }

  // ---------- the failing inputs ----------

  /** dma_w of 128 bytes and, under another tag, of 64. */
  const WRITE_128 := AfuCmd(0x20, 0, 0, OBJ, 7, 2, 0, 0, 0, 0, 0, 0, 0)
  const WRITE_64 := AfuCmd(0x20, 0, 0, OBJ, 8, 1, 0, 0, 0, 0, 0, 0, 0)

  lemma WriteArrives(beat: LineBeat)
    ensures var e := Fill(NewEvent(0, WRITE_128, CmdWrite, 0, 128, Idle, 0, WRITE_RESP), beat);
      && HandleCmd(State([], [Some(CLIENT)], Some(WRITE_128), Some(beat), [], [], []), 0) == Alone([e], CLIENT, [], [])
      && Picks(ToFill, e) && e.afutag == 7
  {
    AddrZero(WRITE_128);
    FoundAlone(WRITE_128, CmdWrite, 128, Idle, 0, WRITE_RESP, Some(beat));
    hide AddFound, AddrOf, FindByActag;
  }

  /** A write that comes with its beat while another is being assembled stalls. */
  lemma SecondWriteStalls(cl: nat, first: LineBeat, second: LineBeat) returns (states: seq<State>, steps: seq<Step>)
    requires ValidCl(cl)
    ensures Run(cl, 1, states, steps) && exists e :: e in states[|steps|].list && e.came == WRITE_64 && Stalled(e)
  {
    WriteArrives(first);
    var e := Fill(NewEvent(0, WRITE_128, CmdWrite, 0, 128, Idle, 0, WRITE_RESP), first);
    states, steps := Arrives(cl, WRITE_128, Some(first), e);
    hide Run, Fill, NewEvent;
    var staged := Alone([e], CLIENT, [], []).(cmd := Some(WRITE_64), cdata := Some(second));
    states, steps := Extended(cl, states, steps, Receive(Some(WRITE_64), Some(second)));
    SecondWriteAdded(e, second);
    states, steps := Extended(cl, states, steps, Parse(1));
    assert states[|steps|].list[1].came == WRITE_64 && Stalled(states[|steps|].list[1]);
  }

  lemma SecondWriteAdded(e: Ev, beat: LineBeat)
    requires Picks(ToFill, e) && e.afutag == 7
    ensures var s := Alone([e], CLIENT, [], []).(cmd := Some(WRITE_64), cdata := Some(beat));
      var t := HandleCmd(s, 1);
      && |t.list| == 2 && t.list[1].came == WRITE_64 && Stalled(t.list[1])
  {
    AddrZero(WRITE_64);
    OneFound(WRITE_64);
    hide AddrOf, FindByActag;
    assert DataExpected([e]) && !HasTag([e], 8);
  }

  lemma AmoAdded()
    ensures HandleCmd(State([], [Some(CLIENT)], Some(AMO_RD_N), None, [], [], []), 0)
      == Alone([NewEvent(0, AMO_RD_N, CmdAmoRd, 0, 4, Idle, 0, WRITE_RESP)], CLIENT, [], [])
  {
    AddrZero(AMO_RD_N);
    FoundAlone(AMO_RD_N, CmdAmoRd, 4, Idle, 0, WRITE_RESP, None);
    hide AddFound, NewEvent, AddrOf, FindByActag;
  }

  /** An amo_rd that comes without data, of which it needs none, stalls. */
  lemma AmoReadStalls(cl: nat) returns (states: seq<State>, steps: seq<Step>)
    requires ValidCl(cl)
    ensures Run(cl, 1, states, steps) && exists e :: e in states[|steps|].list && e.came == AMO_RD_N && Stalled(e)
  {
    AmoAdded();
    var e := NewEvent(0, AMO_RD_N, CmdAmoRd, 0, 4, Idle, 0, WRITE_RESP);
    states, steps := Arrives(cl, AMO_RD_N, None, e);
    hide Run;
    assert e in states[|steps|].list && e.came == AMO_RD_N && Stalled(e);
  }
}
