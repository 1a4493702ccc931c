/** What every command is, from the command as it came (ocse/cmd.c): its address, length and kind, when it is failed on
    arrival, and the opcode and code it is answered with, with the exact conditions under which these are right. */
module CmdCodes {
  import opened Common
  import opened TlxPacket
  import opened CmdEngine
  import opened CmdInvariant
  import opened CmdTheorems
  import opened CmdInputs
  import opened CmdKinds

  // ---------- what ocse answers ----------

  /** _add_amo fails an amo_rd with a write's opcode: in the default case of its pl check, or misaligned when it is
      amo_rd.n. */
  predicate Misjudged(c: AfuCmd) {
    KindOf(c.opcode) == AmoRead && (Judge(c) == BadLength || (c.opcode == 0x3c && Judge(c) == Misaligned))
  }

  /** The opcode kept for success when a command is added; 0x3c is missing from the list of reads. */
  function Chosen(o: Byte): Byte {
    if o == 0x3c then 0x08 else CalledFor(KindOf(o), false)
  }

  /** The opcode ocse answers with, from the command as it came and its outcome. */
  function OpcodeOf(c: AfuCmd, failed: bool, denied: bool): Byte {
    if Misjudged(c) then 0x09
    else if failed && !denied then CalledFor(KindOf(c.opcode), true)
    else Chosen(c.opcode)
  }

  /** The commands answered with another opcode than their kind and outcome call for: those the application denied, and
      an amo_rd that _add_amo misjudges or, as amo_rd.n, is carried out. */
  predicate Miscoded(c: AfuCmd, failed: bool, denied: bool) {
    denied || Misjudged(c) || (c.opcode == 0x3c && !failed)
  }

  // ---------- what a command is ----------

  function TypeFor(k: Kind): CmdType {
    match k
    case FullRead => CmdRead
    case PartRead => CmdRead
    case FullWrite => CmdWrite
    case PartWrite => CmdWrite
    case ByteWrite => CmdWrBe
    case AmoRead => CmdAmoRd
    case AmoSwap => CmdAmoRw
    case AmoWrite => CmdAmoWr
    case Wake => CmdWake
    case Touch => CmdTouch
    case _ => CmdInterrupt
  }

  /** The size field of an accepted command: its length, which an AMO that brought data back swaps for a pl; a touch or
      an interrupt without data has none, and an interrupt whose pl stands for nothing 65535. */
  function SizeNow(e: Ev): nat {
    var k := KindOf(e.came.opcode);
    if k in {Signal, Wake, Touch} then 0
    else if k == SignalData then if Length(e.came).Some? then Length(e.came).value else 65535
    else if k in {AmoRead, AmoSwap} && e.state == Done && e.typ != CmdFailed then
      if Length(e.came) == Some(4) then 2 else 3
    else LengthOr1(e.came)
  }

  /** Failed on arrival with a code. */
  predicate Rejected(e: Ev, code: Byte) {
    e.typ == CmdFailed && e.state == Done && e.resp == code && !e.denied
  }

  /** A command has the tag, opcode, address, length, byte enables, flag and endianness it came with, the type of its
      kind unless it failed, and a code that tells how it failed. */
  predicate Born(e: Ev) {
    var c, k := e.came, KindOf(e.came.opcode);
    && e.afutag == c.afutag && e.command == c.opcode
    && match Judge(c)
       case Ignored => false
       case Unknown => Rejected(e, 15)
       case BadLength => Rejected(e, 0x09)
       case Misaligned => Rejected(e, 0x0b)
       case Accepted =>
         && e.addr == Address(c) && e.size == SizeNow(e)
         && (e.typ != CmdFailed ==> e.typ == TypeFor(k) && e.resp == 0 && !e.denied)
         && e.wrBe == (if k == ByteWrite then c.be else 0)
         && e.flag == (if Amo(k) || k in {Signal, SignalData, Wake} then c.flag else 0)
         && e.endian == (if Amo(k) then c.endian else 0)
         && (e.typ == CmdFailed && e.state != PendingSent ==> e.resp in {0x02, 0x04, 0x08, 0x0e})
         && (e.denied ==> e.state == Done && e.resp == 0x0e && (Reads(k) || Writes(k)))
  }

  /** The opcode a command is going to be answered with. */
  predicate Coded(e: Ev) {
    Born(e) && e.respOpcode == OpcodeOf(e.came, e.typ == CmdFailed, e.denied)
  }

  lemma RightExactly(e: Ev)
    requires Coded(e)
    ensures var failed := e.typ == CmdFailed;
      e.respOpcode == CalledFor(KindOf(e.came.opcode), failed) <==> !Miscoded(e.came, failed, e.denied)
  {
    hide Length, Address, LengthOr1;
  }

  // ---------- one command through each handler ----------

  /** Only the progress of the answer or of the data differs. */
  predicate SameCodes(e: Ev, n: Ev) {
    && n.afutag == e.afutag && n.command == e.command && n.came == e.came && n.typ == e.typ && n.denied == e.denied
    && n.addr == e.addr && n.size == e.size && n.wrBe == e.wrBe && n.flag == e.flag && n.endian == e.endian
    && n.respOpcode == e.respOpcode
    && (n.resp == e.resp || (if n.typ == CmdFailed then n.state == PendingSent else n.resp == 0))
    && (e.state == PendingSent ==> n.state == PendingSent)
    && (e.state == Done ==> n.state == Done)
    && (n.state == Done && e.state != Done ==> e.typ !in {CmdAmoRd, CmdAmoRw})
  }

  lemma SameCodesKeep(e: Ev, n: Ev)
    requires Coded(e) && SameCodes(e, n)
    ensures Coded(n)
  {
    hide OpcodeOf, Judge, KindOf, Length, Address;
  }

  lemma AnswerCodes(cl: nat, e: Ev, accept: bool)
    requires Coded(e) && CanSend(cl, e) && e.state != PendingSent
    ensures Coded(Answer(cl, e, accept).e)
  {
    assert SameCodes(e, Answer(cl, e, accept).e) by {
      hide MsgOf, PayloadInBuffer;
    }
    hide Coded, Answer, CanSend;
    SameCodesKeep(e, Answer(cl, e, accept).e);
  }

  lemma FinishCodes(e: Ev, a: Allow, accept: bool)
    requires Coded(e) && e.state == PendingSent && e.typ == CmdFailed
    ensures Coded(Finish(e, a, accept).e)
  {
    assert SameCodes(e, Finish(e, a, accept).e);
    hide Coded, Finish;
    SameCodesKeep(e, Finish(e, a, accept).e);
  }

  /** A refusal is answered with the failure its kind calls for. */
  lemma FailCodes(e: Ev, code: Byte)
    requires Coded(e) && e.typ != CmdFailed && code in {0x02, 0x04, 0x08, 0x0e} && e.state != Done
    ensures Coded(Fail(e, CalledFor(KindOf(e.command), true), code))
  {
    hide CalledFor, Length, Address, LengthOr1;
  }

  lemma InterruptCodes(e: Ev, a: Allow)
    requires Coded(e) && Picks(ToInterrupt, e)
    ensures Coded(AfterInterrupt(e, a))
  {
    hide Length, Address, LengthOr1;
  }

  /** A denied command keeps the opcode of its success. */
  lemma AerrorCodes(e: Ev)
    requires Coded(e) && e.typ != CmdFailed && e.state != Done
    requires Reads(KindOf(e.command)) || Writes(KindOf(e.command))
    ensures Coded(Aerror(e))
  {
    hide CalledFor, Length, Address, LengthOr1;
  }

  lemma ReturnCodes(e: Ev, bytes: seq<Byte>)
    requires Coded(e) && e.typ != CmdFailed && e.state !in {PendingSent, Done}
    requires e.typ in {CmdRead, CmdAmoRd, CmdAmoRw} ==> CanStore(e, bytes)
    ensures Coded(MemReturn(e, bytes))
  {
    hide Put, Address;
    if e.typ !in {CmdAmoRd, CmdAmoRw} {
      assert SameCodes(e, MemReturn(e, bytes));
      hide Coded, MemReturn;
      SameCodesKeep(e, MemReturn(e, bytes));
    } else {
      AmoLengths(e.came);
      hide OpcodeOf, Length;
    }
  }

  lemma AmoLengths(c: AfuCmd)
    requires Judge(c) == Accepted && Amo(KindOf(c.opcode))
    ensures Length(c) == Some(LengthOr1(c)) && LengthOr1(c) in {4, 8}
  {
    Powers();
    hide Address;
  }

  // ---------- which refusal gives which code ----------

  /** Of the four refusals of a request the first that is allowed decides: retry 0x02, failed 0x0e, data error 0x08,
      pending 0x04, which alone is not the last word. */
  lemma RefusalCodes(e: Ev, opcode: Byte, a: Allow)
    ensures Refusal(a).None? <==> !a.retry && !a.failed && !a.derror && !a.pending
    ensures Refusal(a).Some? ==>
      var n := Fail(e, opcode, Refusal(a).value);
      && n.resp == (if a.retry then 0x02 else if a.failed then 0x0e else if a.derror then 0x08 else 0x04)
      && n.typ == CmdFailed && n.respOpcode == opcode
      && n.state == (if !a.retry && !a.failed && !a.derror then XlatePending else Done)
  {
  }

  /** An interrupt is retried, failed or left pending, a wake-up never left pending, and one with data can have a data
      error; otherwise it is passed on and succeeds. */
  lemma InterruptRefusals(e: Ev, a: Allow)
    requires e.typ in {CmdInterrupt, CmdWake} && e.resp == 0
    ensures var n := AfterInterrupt(e, a);
      && (n.resp == 0x02 <==> a.retry)
      && (n.resp == 0x0e <==> !a.retry && a.failed)
      && (n.resp == 0x04 <==> n.state == IntPending)
      && (n.resp == 0x04 <==> !a.retry && !a.failed && a.pending && e.typ != CmdWake)
      && (n.resp == 0x08 <==>
            !a.retry && !a.failed && a.derror && e.command == 0x5a && (!a.pending || e.typ == CmdWake))
      && (n.resp == 0x00 <==> !IntrRefused(e, a)) && (n.typ == CmdFailed <==> IntrRefused(e, a))
      && (n.state == IntPending || n.state == Done)
  {
  }

  /** The completion of a pending command says retry 0x02 or done 0x00; one that is to fail is not sent. */
  lemma CompletionCodes(e: Ev, a: Allow, accept: bool)
    ensures var f := Finish(e, a, accept);
      && (f.Leaves? <==> accept && (a.retry || !a.failed))
      && (f.Leaves? ==>
            && |f.e.hist| == |e.hist| + 1 && f.e.hist[..|e.hist|] == e.hist
            && f.e.hist[|e.hist|].r.code == (if a.retry then 0x02 else 0x00)
            && f.e.hist[|e.hist|].r.afutag == e.afutag)
      && (f.Stays? ==> f.e.hist == e.hist && f.e.state == e.state)
  {
  }

  // ---------- the list ----------

  predicate CodesOk(s: State) {
    && (forall i :: 0 <= i < |s.list| ==> Coded(s.list[i]))
    && (forall i :: 0 <= i < |s.retired| ==> Coded(s.retired[i]))
  }

  lemma ReplaceCodes(s: State, i: nat, e: Ev, t: State)
    requires CodesOk(s) && i < |s.list| && Coded(e) && t.list == s.list[i := e] && t.retired == s.retired
    ensures CodesOk(t)
  {
    hide Coded;
  }

  lemma ResolveCodes(s: State, i: nat, f: Fate)
    requires CodesOk(s) && i < |s.list| && Coded(f.e)
    ensures CodesOk(Resolve(s, i, f))
  {
    hide Coded;
  }

  lemma InsertCodes(s: State, pos: nat, e: Ev, t: State)
    requires CodesOk(s) && pos <= |s.list| && Coded(e) && t.list == Insert(s.list, pos, e) && t.retired == s.retired
    ensures CodesOk(t)
  {
    hide Coded;
  }

  // ---------- commands arriving ----------

  /** A command is added as what it is. */
  predicate AddedRight(c: AfuCmd, typ: CmdType, addr: U64, size: nat, state: MemState, resp: Byte, opcode: Byte) {
    Coded(NewEvent(0, c, typ, addr, size, state, resp, opcode)) && state != PendingSent
  }

  lemma AnyContext(context: nat, c: AfuCmd, typ: CmdType, addr: U64, size: nat, state: MemState, resp: Byte,
      opcode: Byte)
    requires AddedRight(c, typ, addr, size, state, resp, opcode)
    ensures Coded(NewEvent(context, c, typ, addr, size, state, resp, opcode))
  {
    assert SameCodes(NewEvent(0, c, typ, addr, size, state, resp, opcode),
                     NewEvent(context, c, typ, addr, size, state, resp, opcode));
    hide Coded, NewEvent, SameCodes;
    SameCodesKeep(NewEvent(0, c, typ, addr, size, state, resp, opcode),
                  NewEvent(context, c, typ, addr, size, state, resp, opcode));
  }

  lemma FoundCodes(s: State, c: AfuCmd, typ: CmdType, addr: U64, size: nat, state: MemState, resp: Byte, opcode: Byte,
                   beat: Option<LineBeat>, pos: nat)
    requires CodesOk(s) && pos <= |s.list| && AddedRight(c, typ, addr, size, state, resp, opcode)
    requires beat.Some? ==> state == Idle
    ensures CodesOk(AddFound(s, c, typ, addr, size, state, resp, opcode, beat, pos))
  {
    var f := FindByActag(s.clients, c.actag);
    hide FindByActag, Coded, AddedRight;
    if f.Some? {
      var e := NewEvent(f.value, c, typ, addr, size, state, resp, opcode);
      AnyContext(f.value, c, typ, addr, size, state, resp, opcode);
      if beat.None? || DataExpected(s.list) {
        hide NewEvent, DataExpected;
        InsertCodes(s, pos, e, AddCmd(s, e, beat, pos));
      } else {
        var n := Fill(e, beat.value);
        assert SameCodes(e, n);
        hide NewEvent, SameCodes;
        SameCodesKeep(e, n);
        hide DataExpected, Fill;
        InsertCodes(s, pos, n, AddCmd(s, e, beat, pos));
      }
    }
  }

  lemma FailedCodes(s: State, c: AfuCmd, resp: Byte, opcode: Byte, pos: nat)
    requires CodesOk(s) && pos <= |s.list| && AddedRight(c, CmdFailed, 0, 0, Done, resp, opcode)
    ensures CodesOk(AddFail(s, c, resp, opcode, pos))
  {
    hide CodesOk, AddedRight, AddFound;
    FoundCodes(s, c, CmdFailed, 0, 0, Done, resp, opcode, None, pos);
  }

  /** The address the engine reads is the one the command came with. */
  lemma AddressRead(c: AfuCmd)
    ensures AddrOf(c) == Address(c)
  {
    var b := c.eaOrObj;
    Turned(b[..8], [b[7], b[6], b[5], b[4], b[3], b[2], b[1], b[0]]);
  }

  /** The length the engine's checks work with. */
  function Given(c: AfuCmd): int {
    if Length(c).Some? then Length(c).value else -1
  }

  /** The checks come out as the verdict says, and what is added then is what the command is. */
  lemma CheckedRight(c: AfuCmd, failed: Byte, ok: Byte)
    requires var k := KindOf(c.opcode);
      && k in {FullRead, PartRead, FullWrite, PartWrite, ByteWrite, Touch}
      && failed == CalledFor(k, true) && ok == CalledFor(k, false)
    ensures Given(c) == -1 || Given(c) > 0
    ensures var k, size := KindOf(c.opcode), Given(c);
      match AlignmentOf(AddrOf(c), size)
      case BadSize => AddedRight(c, CmdFailed, 0, 0, Done, 0x09, failed)
      case BadOffset => AddedRight(c, CmdFailed, 0, 0, Done, 0x0b, failed)
      case Aligned =>
        AddedRight(c, TypeFor(k), AddrOf(c), if k == Touch then 0 else size, if k == Touch then Done else Idle, 0, ok)
  {
    AddressRead(c);
    Powers();
    hide AddrOf, Address;
  }

  lemma CheckedCodes(s: State, c: AfuCmd, typ: CmdType, size: int, eventSize: int, state: MemState, failed: Byte,
      ok: Byte, beat: Option<LineBeat>, pos: nat)
    requires CodesOk(s) && pos <= |s.list| && size == Given(c) && (beat.Some? ==> state == Idle)
    requires var k := KindOf(c.opcode);
      && k in {FullRead, PartRead, FullWrite, PartWrite, ByteWrite, Touch}
      && failed == CalledFor(k, true) && ok == CalledFor(k, false) && typ == TypeFor(k)
      && eventSize == (if k == Touch then 0 else size) && state == (if k == Touch then Done else Idle)
    ensures size == -1 || size > 0
    ensures CodesOk(AddChecked(s, c, typ, size, eventSize, state, failed, ok, beat, pos))
  {
    CheckedRight(c, failed, ok);
    hide CodesOk, AddedRight, AddFound, AddFail, AddrOf, CalledFor, KindOf, Given;
    var a := AlignmentOf(AddrOf(c), size);
    hide AlignmentOf;
    if a == Aligned {
      FoundCodes(s, c, typ, AddrOf(c), eventSize, state, 0, ok, beat, pos);
    } else {
      FailedCodes(s, c, if a == BadSize then 0x09 else 0x0b, failed, pos);
    }
  }

  lemma AmoCodes(s: State, c: AfuCmd, beat: Option<LineBeat>, pos: nat)
    requires CodesOk(s) && pos <= |s.list| && Amo(KindOf(c.opcode))
    ensures CodesOk(AddAmo(s, c, beat, pos))
  {
    var asRead := IsAmoRw(c.opcode) || c.opcode == 0x38;
    var size := if c.pl in {2, 6} then 4 else 8;
    var failed, ok := if asRead then READ_FAILED else WRITE_FAILED, if asRead then READ_RESP else WRITE_RESP;
    AmoAddedRight(c);
    hide CodesOk, AddedRight, AddFound, AddFail, AddrOf, AmoBadSize, FindByActag, KindOf;
    if AmoBadSize(c).Some? {
      FailedCodes(s, c, 0x09, AmoBadSize(c).value, pos);
    } else if AddrOf(c) % size != 0 {
      FailedCodes(s, c, 0x0b, failed, pos);
    } else {
      FoundCodes(s, c, AmoType(c.opcode), AddrOf(c), size, Idle, 0, ok, beat, pos);
    }
  }

  lemma AmoAddedRight(c: AfuCmd)
    requires Amo(KindOf(c.opcode))
    ensures var asRead := IsAmoRw(c.opcode) || c.opcode == 0x38;
      var size := if c.pl in {2, 6} then 4 else 8;
      && (AmoBadSize(c).Some? ==> AddedRight(c, CmdFailed, 0, 0, Done, 0x09, AmoBadSize(c).value))
      && (AmoBadSize(c).None? && AddrOf(c) % size != 0 ==>
            AddedRight(c, CmdFailed, 0, 0, Done, 0x0b, if asRead then READ_FAILED else WRITE_FAILED))
      && (AmoBadSize(c).None? && AddrOf(c) % size == 0 ==>
            AddedRight(c, AmoType(c.opcode), AddrOf(c), size, Idle, 0, if asRead then READ_RESP else WRITE_RESP))
  {
    AddressRead(c);
    AmoSizes(c);
    hide AddrOf, Address, Length, AmoBadSize, AmoLength;
  }

  lemma AmoSizes(c: AfuCmd)
    requires Amo(KindOf(c.opcode))
    ensures AmoBadSize(c).Some? <==> Length(c).None?
    ensures Length(c).Some? ==> Length(c).value == if c.pl in {2, 6} then 4 else 8
    ensures AmoBadSize(c).Some? ==> AmoBadSize(c).value == if KindOf(c.opcode) == AmoSwap then 0x05 else 0x09
  {
    Powers();
  }

  lemma SignalCodes(s: State, c: AfuCmd, size: int, beat: Option<LineBeat>, pos: nat)
    requires CodesOk(s) && pos <= |s.list| && IsInterrupt(c.opcode)
    requires size == if c.opcode == 0x5a then PlToSize(c.pl) else 0
    ensures CodesOk(AddInterrupt(s, c, size, beat, pos))
  {
    var wake := c.opcode == 0x5c;
    var typ, ok := if wake then CmdWake else CmdInterrupt, if wake then WAKE_RESP else INTRP_RESP;
    var held := if size == -1 then 65535 else size;
    AddressRead(c);
    SizesArePowers(c.pl);
    assert AddedRight(c, typ, AddrOf(c), held, Idle, 0, ok) by {
      hide AddrOf, Address, PlToSize;
    }
    hide CodesOk, AddedRight, AddFound, AddrOf;
    FoundCodes(s, c, typ, AddrOf(c), held, Idle, 0, ok, beat, pos);
  }

  lemma ParseCodes(s: State, c: AfuCmd, beat: Option<LineBeat>, pos: nat)
    requires CodesOk(s) && pos <= |s.list|
    ensures CodesOk(ParseCmd(s, c, beat, pos))
  {
    var r := s.(cdata := beat);
    var o := c.opcode;
    assert CodesOk(r) && CodesOk(r.(clients := AssignActag(s.clients, c, 0)));
    SizesArePowers(c.dl);
    SizesArePowers(c.pl);
    hide CodesOk, AddChecked, AddAmo, AddInterrupt, AddFail, AssignActag, DlToSize, PlToSize, Pow2;
    if IsRead(o) {
      CheckedCodes(r, c, CmdRead, DlToSize(c.dl), DlToSize(c.dl), Idle, READ_FAILED, READ_RESP, None, pos);
    } else if IsPartialRead(o) {
      CheckedCodes(r, c, CmdRead, PlToSize(c.pl), PlToSize(c.pl), Idle, READ_FAILED, READ_RESP, None, pos);
    } else if IsWrite(o) {
      CheckedCodes(s, c, CmdWrite, DlToSize(c.dl), DlToSize(c.dl), Idle, WRITE_FAILED, WRITE_RESP, beat, pos);
    } else if IsPartialWrite(o) {
      CheckedCodes(s, c, CmdWrite, PlToSize(c.pl), PlToSize(c.pl), Idle, WRITE_FAILED, WRITE_RESP, beat, pos);
    } else if IsWriteBe(o) {
      CheckedCodes(s, c, CmdWrBe, 64, 64, Idle, WRITE_FAILED, WRITE_RESP, beat, pos);
    } else if IsAmoRd(o) || IsAmoRw(o) || IsAmoW(o) {
      AmoCodes(s, c, beat, pos);
    } else if IsInterrupt(o) {
      SignalCodes(s, c, if o == 0x5a then PlToSize(c.pl) else 0, beat, pos);
    } else if IsTouch(o) {
      CheckedCodes(r, c, CmdTouch, 64, 0, Done, TOUCH_RESP, TOUCH_RESP, None, pos);
    } else if o != 0 && o != 0x50 {
      assert AddedRight(c, CmdFailed, 0, 0, Done, RESPONSE_FAILED, RESPONSE_FAILED);
      FailedCodes(s, c, RESPONSE_FAILED, RESPONSE_FAILED, pos);
    }
  }

  lemma CmdCodesKept(s: State, pos: nat)
    requires CodesOk(s) && pos <= |s.list|
    ensures CodesOk(HandleCmd(s, pos))
  {
    hide ParseCmd, HasTag, Coded;
    if s.cmd.Some? && !HasTag(s.list, s.cmd.value.afutag) {
      ParseCodes(s.(cmd := None, cdata := None), s.cmd.value, s.cdata, pos);
    }
  }

  // ---------- the other handlers ----------

  lemma StepCodes(cl: nat, s: State, a: Step)
    requires ValidCl(cl) && Inv(cl, s) && Enabled(cl, s, a) && CodesOk(s)
    ensures CodesOk(Next(cl, s, a))
  {
    hide CodesOk, Inv, HandleCmd, HandleBufferWrite, HandleWriteCmd, HandleInterrupt, HandleOperate, HandleAnswer,
      HandleCmdData, HandleResponse, HandlePendingSent;
    match a {
      case Respond(accept) => ResponseCodes(cl, s, accept);
      case FinishPending(pick, w, ok) => PendingCodes(cl, s, pick, w, ok);
      case Parse(pos) => CmdCodesKept(s, pos);
      case ClientAnswer(context, ok, bytes) => ClientCodes(cl, s, context, ok, bytes);
      case BufferWrite(w) => ReadCodes(cl, s, w);
      case CmdData => DataCodes(cl, s);
      case WriteCmd(w) => WriteCodes(cl, s, w);
      case Interrupt(w) => IntrCodes(cl, s, w);
      case Operate(w) => OperateCodes(cl, s, w);
      case Receive(_, _) => StagedCodes(s, Next(cl, s, a));
      case Attach(_, _, _) => StagedCodes(s, Next(cl, s, a));
    }
  }

  lemma StagedCodes(s: State, t: State)
    requires CodesOk(s) && t.list == s.list && t.retired == s.retired
    ensures CodesOk(t)
  {
  }

  lemma ResponseCodes(cl: nat, s: State, accept: bool)
    requires CodesOk(s) && CanRespond(cl, s)
    ensures CodesOk(HandleResponse(cl, s, accept))
  {
    var i := First(s.list, ToRespond);
    if i < |s.list| {
      hide Coded, CanSend, Answer;
      AnswerCodes(cl, s.list[i], accept);
      ResolveCodes(s, i, Answer(cl, s.list[i], accept));
    }
  }

  lemma PendingCodes(cl: nat, s: State, pick: Option<nat>, w: Allow, ok: bool)
    requires ValidCl(cl) && Inv(cl, s) && CodesOk(s) && Pickable(s, pick)
    ensures CodesOk(HandlePendingSent(s, pick, w, ok))
  {
    if pick.Some? {
      assert Shape(cl, s.list[pick.value]);
      hide Coded, Finish;
      FinishCodes(s.list[pick.value], w, ok);
      ResolveCodes(s, pick.value, Finish(s.list[pick.value], w, ok));
    }
  }

  lemma ClientCodes(cl: nat, s: State, context: nat, ok: bool, bytes: seq<Byte>)
    requires ValidCl(cl) && Inv(cl, s) && CodesOk(s) && CanAnswer(s, context, ok, bytes)
    ensures CodesOk(HandleAnswer(s, context, ok, bytes))
  {
    var a := s.clients[context].value.access;
    if a.Some? {
      AccessedEvent(cl, s, context);
      var i := TagIndex(s.list, a.value);
      AccessedKind(cl, s.list[i]);
      hide Inv, Coded, MemReturn, Aerror, Accessed;
      if ok {
        ReturnCodes(s.list[i], bytes);
      } else {
        AerrorCodes(s.list[i]);
      }
      ReplaceCodes(s, i, if ok then MemReturn(s.list[i], bytes) else Aerror(s.list[i]),
          HandleAnswer(s, context, ok, bytes));
    }
  }

  lemma AccessedKind(cl: nat, e: Ev)
    requires ValidCl(cl) && Shape(cl, e) && Accessed(e)
    ensures e.typ != CmdFailed && e.state !in {PendingSent, Done}
    ensures Reads(KindOf(e.command)) || Writes(KindOf(e.command))
  {
  }

  /** What a refusal by handle_buffer_write, handle_afu_tlx_write_cmd or handle_write_be_or_amo answers with is what the
      kind calls for. */
  lemma RefusedKind(e: Ev)
    requires Sized(e)
    ensures e.typ == CmdRead ==> CalledFor(KindOf(e.command), true) == READ_FAILED
    ensures e.typ == CmdWrite ==> CalledFor(KindOf(e.command), true) == WRITE_FAILED
    ensures e.typ in {CmdWrBe, CmdAmoRd, CmdAmoRw, CmdAmoWr} ==>
      CalledFor(KindOf(e.command), true) == if e.typ in {CmdAmoRd, CmdAmoRw} then READ_FAILED else WRITE_FAILED
  {
  }

  lemma ReadCodes(cl: nat, s: State, w: Allow)
    requires ValidCl(cl) && Inv(cl, s) && CodesOk(s)
    ensures CodesOk(HandleBufferWrite(s, w))
  {
    var i := First(s.list, ToRead);
    if i < |s.list| {
      var e := s.list[i];
      var n := HandleBufferWrite(s, w).list[i];
      assert Shape(cl, e);
      RefusedKind(e);
      hide Inv, CalledFor;
      if Refusal(w).Some? {
        FailCodes(e, Refusal(w).value);
      }
      SameCodesKeep(e, e);
      assert n != Fail(e, READ_FAILED, if Refusal(w).Some? then Refusal(w).value else 0) ==> SameCodes(e, n);
      hide Coded;
      if SameCodes(e, n) {
        SameCodesKeep(e, n);
      }
      ReplaceCodes(s, i, n, HandleBufferWrite(s, w));
    }
  }

  lemma DataCodes(cl: nat, s: State)
    requires ValidCl(cl) && Inv(cl, s) && CodesOk(s) && forall e :: e in s.list && Picks(ToFill, e) ==> CanFill(e)
    ensures CodesOk(HandleCmdData(s))
  {
    var i := First(s.list, ToFill);
    if i < |s.list| && s.cdata.Some? {
      var n := Gather(s.list[i], s.cdata.value);
      assert SameCodes(s.list[i], n);
      hide Coded, Gather, Inv, SameCodes;
      SameCodesKeep(s.list[i], n);
      ReplaceCodes(s, i, n, HandleCmdData(s));
    }
  }

  lemma WriteCodes(cl: nat, s: State, w: Allow)
    requires ValidCl(cl) && Inv(cl, s) && CodesOk(s) && forall e :: e in s.list && Picks(ToWrite, e) ==> CanWrite(e)
    ensures CodesOk(HandleWriteCmd(s, w))
  {
    var i := First(s.list, ToWrite);
    if i < |s.list| && Free(s, s.list[i].context) {
      var e := s.list[i];
      var n := HandleWriteCmd(s, w).list[i];
      assert Shape(cl, e);
      RefusedKind(e);
      hide Inv, CalledFor;
      if Refusal(w).Some? {
        FailCodes(e, Refusal(w).value);
      } else {
        assert SameCodes(e, n);
        SameCodesKeep(e, n);
      }
      hide Coded;
      ReplaceCodes(s, i, n, HandleWriteCmd(s, w));
    }
  }

  lemma IntrCodes(cl: nat, s: State, w: Allow)
    requires ValidCl(cl) && Inv(cl, s) && CodesOk(s) && CanInterrupt(s, w)
    ensures CodesOk(HandleInterrupt(s, w))
  {
    var i := First(s.list, ToInterrupt);
    if i < |s.list| {
      var e := s.list[i];
      assert Shape(cl, e);
      hide Inv, Coded, AfterInterrupt, NoticeBytes;
      InterruptCodes(e, w);
      ReplaceCodes(s, i, AfterInterrupt(e, w), HandleInterrupt(s, w));
    }
  }

  lemma OperateCodes(cl: nat, s: State, w: Allow)
    requires ValidCl(cl) && Inv(cl, s) && CodesOk(s) && forall e :: e in s.list && Picks(ToOperate, e) ==> CanOperate(e)
    ensures CodesOk(HandleOperate(s, w))
  {
    var i := First(s.list, ToOperate);
    if i < |s.list| && Free(s, s.list[i].context) {
      var e := s.list[i];
      var n := HandleOperate(s, w).list[i];
      assert Shape(cl, e);
      RefusedKind(e);
      hide Inv, CalledFor;
      if Refusal(w).Some? {
        FailCodes(e, Refusal(w).value);
      } else {
        assert n == e;
      }
      hide Coded;
      ReplaceCodes(s, i, n, HandleOperate(s, w));
    }
  }

  // ---------- runs ----------

  lemma {:induction false} RunCodes(cl: nat, maxClients: nat, states: seq<State>, steps: seq<Step>, n: nat)
    requires ValidCl(cl) && Run(cl, maxClients, states, steps) && n < |states|
    ensures CodesOk(states[n])
  {
    if n > 0 {
      RunCodes(cl, maxClients, states, steps, n - 1);
      RunInv(cl, maxClients, states, steps, n - 1);
      hide Inv, CodesOk, Next, Enabled;
      StepCodes(cl, states[n - 1], steps[n - 1]);
    }
  }

  /** The answers to a command, without the completion that follows a pending one. */
  function AnswersTo(e: Ev): seq<Msg> {
    if e.state == PendingSent && e.hist != [] then e.hist[..|e.hist| - 1] else e.hist
  }

  lemma CompleteCoded(cl: nat, e: Ev)
    requires ValidCl(cl) && Complete(cl, e)
    ensures AnswersTo(e) != [] && forall m :: m in AnswersTo(e) ==> m.r.opcode == e.respOpcode
  {
  }

  /** In every run a command that has left the list was answered with the opcode its kind and outcome call for if and
      only if the application did not deny it and it is not an amo_rd that _add_amo misjudges or that, as amo_rd.n, is
      carried out. */
  lemma RightOpcodeExactly(cl: nat, maxClients: nat, states: seq<State>, steps: seq<Step>, n: nat, i: nat)
    requires ValidCl(cl) && Run(cl, maxClients, states, steps) && n < |states| && i < |states[n].retired|
    ensures var e := states[n].retired[i]; var failed := e.typ == CmdFailed;
      (forall m :: m in AnswersTo(e) ==> m.r.opcode == CalledFor(KindOf(e.came.opcode), failed))
        <==> !Miscoded(e.came, failed, e.denied)
  {
    RunCodes(cl, maxClients, states, steps, n);
    RunInv(cl, maxClients, states, steps, n);
    var e := states[n].retired[i];
    assert Complete(cl, e) && Coded(e);
    hide Inv, Complete, Run, CalledFor, Miscoded;
    CompleteCoded(cl, e);
    RightExactly(e);
    assert AnswersTo(e)[0] in AnswersTo(e);
  }

  /** The completion after a pending answer: intrp_rdy for an interrupt, xlate_done for anything else. */
  predicate IsPosted(e: Ev, m: Msg) {
    && m.r.opcode == (if KindOf(e.came.opcode) in {Signal, SignalData, Wake} then 0x1a else 0x18)
    && m.r == HostResp(m.r.opcode, e.afutag, m.r.code, 0, 0, 0) && m.data == None
  }

  predicate AnsweredAs(e: Ev, m: Msg) {
    m.r.afutag == e.afutag && m.r.opcode == OpcodeOf(e.came, e.typ == CmdFailed, e.denied)
  }

  /** Exactly once: a command that has left the list got one final response, with code 0 if and only if it did not fail,
      or every part of a split success and nothing else, or one pending response and then its completion; each under its
      own tag and the one opcode that the command as it came and its outcome give. */
  lemma ExactlyOnce(cl: nat, maxClients: nat, states: seq<State>, steps: seq<Step>, n: nat, i: nat)
    requires ValidCl(cl) && Run(cl, maxClients, states, steps) && n < |states| && i < |states[n].retired|
    ensures var e := states[n].retired[i];
      var h := e.hist;
      || (!Splits(cl, e) && |h| == 1 && AnsweredAs(e, h[0]) && h[0].r.code != 4
            && (h[0].r.code == 0 <==> e.typ != CmdFailed))
      || (Splits(cl, e) && cl * |h| == e.size && forall k :: 0 <= k < |h| ==> AnsweredAs(e, h[k]) && h[k].r.code == 0)
      || (e.typ == CmdFailed && |h| == 2 && AnsweredAs(e, h[0]) && h[0].r.code == 4 && IsPosted(e, h[1]))
  {
    RunCodes(cl, maxClients, states, steps, n);
    RunInv(cl, maxClients, states, steps, n);
    var e := states[n].retired[i];
    assert Complete(cl, e) && Coded(e);
    hide Inv, Run, OpcodeOf, Misjudged;
  }

  /** An answer that is not a failure says how many bytes it stands for, a line at least: all of a command answered
      whole, HOST_CL_SIZE of one answered in parts. It brings them if and only if it answers a read. */
  predicate SizedAnswer(cl: nat, e: Ev, m: Msg) {
    && DlToSize(m.r.dl) == (if e.size <= 64 then 64 else if e.size > cl then cl else e.size)
    && (m.data.Some? <==> Reads(KindOf(e.came.opcode)))
    && (m.data.Some? ==> |m.data.value| == DlToSize(m.r.dl))
    && m.r.pgSize == 0
  }

  lemma AnswersSized(cl: nat, maxClients: nat, states: seq<State>, steps: seq<Step>, n: nat, i: nat, k: nat)
    requires ValidCl(cl) && Run(cl, maxClients, states, steps) && n < |states| && i < |states[n].retired|
    requires var e := states[n].retired[i]; k < |e.hist| && e.typ != CmdFailed && e.size <= 256
    ensures SizedAnswer(cl, states[n].retired[i], states[n].retired[i].hist[k])
  {
    RunCodes(cl, maxClients, states, steps, n);
    RunInv(cl, maxClients, states, steps, n);
    var e := states[n].retired[i];
    assert Complete(cl, e) && Coded(e);
    hide *;
    BringsData(e);
    if Splits(cl, e) {
      PartSized(cl, e, k);
    } else {
      WholeSized(cl, e, k);
    }
  }

  lemma BringsData(e: Ev)
    requires Coded(e) && e.typ != CmdFailed
    ensures AnswersWithData(e) <==> Reads(KindOf(e.came.opcode))
    ensures e.typ == CmdTouch ==> e.size == 0
  {
    hide Length, Address, LengthOr1, Judge;
  }

  lemma PartSized(cl: nat, e: Ev, k: nat)
    requires ValidCl(cl) && Complete(cl, e) && Splits(cl, e) && k < |e.hist| && e.size <= 256
    requires AnswersWithData(e) <==> Reads(KindOf(e.came.opcode))
    ensures SizedAnswer(cl, e, e.hist[k])
  {
    hide KindOf, Sized, Stored;
  }

  lemma WholeSized(cl: nat, e: Ev, k: nat)
    requires ValidCl(cl) && Complete(cl, e) && !Splits(cl, e) && k < |e.hist| && e.typ != CmdFailed && e.size <= 256
    requires e.typ == CmdTouch ==> e.size == 0
    requires AnswersWithData(e) <==> Reads(KindOf(e.came.opcode))
    ensures SizedAnswer(cl, e, e.hist[k])
  {
    hide KindOf, Stored;
  }

  // ---------- the failing inputs ----------

  lemma ReadArrives()
    ensures HandleCmd(State([], [Some(CLIENT)], Some(READ_64), None, [], [], []), 0)
      == Alone([NewEvent(0, READ_64, CmdRead, 0, 64, Idle, 0, READ_RESP)], CLIENT, [], [])
  {
    AddrZero(READ_64);
    FoundAlone(READ_64, CmdRead, 64, Idle, 0, READ_RESP, None);
    hide AddFound, NewEvent, AddrOf, FindByActag;
  }

  /** A denied read: it is answered READ_RESP with code 0x0e and no data. */
  lemma DeniedRead(cl: nat) returns (states: seq<State>, steps: seq<Step>)
    requires ValidCl(cl)
    ensures Run(cl, 1, states, steps) && |states[|steps|].retired| == 1
    ensures var e := states[|steps|].retired[0];
      e.came == READ_64 && e.denied && e.hist == [Msg(HostResp(READ_RESP, 7, 0x0e, 0, 1, 0), None)]
  {
    ReadArrives();
    var e := NewEvent(0, READ_64, CmdRead, 0, 64, Idle, 0, READ_RESP);
    states, steps := Arrives(cl, READ_64, None, e);
    var n := e.(state := Request);
    var d := Aerror(n);
    assert d.hist == [] && MsgOf(d) == Msg(HostResp(READ_RESP, 7, 0x0e, 0, 1, 0), None);
    var req := [ReadReq(0, 7, 0, 64)];
    AloneRead(cl, e);
    AloneAnswered(cl, n, false, [], req);
    AloneLeaves(cl, d, req);
    hide Run, Next, NewEvent, MsgOf;
    states, steps := Extended(cl, states, steps, BufferWrite(UNREFUSED));
    states, steps := Extended(cl, states, steps, ClientAnswer(0, false, []));
    states, steps := Extended(cl, states, steps, Respond(true));
  }

  /** An amo_rd with pl 0: it is answered WRITE_FAILED. */
  lemma MisjudgedAmo(cl: nat) returns (states: seq<State>, steps: seq<Step>)
    requires ValidCl(cl)
    ensures Run(cl, 1, states, steps) && |states[|steps|].retired| == 1
    ensures var e := states[|steps|].retired[0];
      e.came == AMO_RD_0 && !e.denied && e.hist == [Msg(HostResp(WRITE_FAILED, 7, 0x09, 0, 1, 0), None)]
  {
    var e := NewEvent(0, AMO_RD_0, CmdFailed, 0, 0, Done, 0x09, WRITE_FAILED);
    AmoFailsAlone();
    states, steps := Arrives(cl, AMO_RD_0, None, e);
    assert e.hist == [] && MsgOf(e) == Msg(HostResp(WRITE_FAILED, 7, 0x09, 0, 1, 0), None);
    AloneLeaves(cl, e, []);
    hide Run, Next, NewEvent, MsgOf;
    states, steps := Extended(cl, states, steps, Respond(true));
  }

  lemma AmoFailsAlone()
    ensures HandleCmd(State([], [Some(CLIENT)], Some(AMO_RD_0), None, [], [], []), 0)
      == Alone([NewEvent(0, AMO_RD_0, CmdFailed, 0, 0, Done, 0x09, WRITE_FAILED)], CLIENT, [], [])
  {
    FoundAlone(AMO_RD_0, CmdFailed, 0, Done, 0x09, WRITE_FAILED, None);
    hide AddFound, NewEvent, AddrOf, FindByActag;
  }

  /** An amo_rd.n that is carried out: it brings data back under WRITE_RESP. */
  lemma AmoReadAsWrite(cl: nat, beat: LineBeat, bytes: seq<Byte>) returns (states: seq<State>, steps: seq<Step>)
    requires ValidCl(cl) && |bytes| == 4
    ensures Run(cl, 1, states, steps) && |states[|steps|].retired| == 1
    ensures var e := states[|steps|].retired[0];
      && e.came == AMO_RD_N && !e.denied && |e.hist| == 1
      && e.hist[0].r.opcode == WRITE_RESP && e.hist[0].r.code == 0
      && e.hist[0].data.Some? && bytes <= e.hist[0].data.value
  {
    AmoArrives(beat);
    var e := Fill(NewEvent(0, AMO_RD_N, CmdAmoRd, 0, 4, Idle, 0, WRITE_RESP), beat);
    states, steps := Arrives(cl, AMO_RD_N, Some(beat), e);
    AmoReturned(cl, e, beat, bytes);
    var d := MemReturn(e, bytes);
    AloneOperate(cl, e);
    AloneAnswered(cl, e, true, bytes, [OpReqOf(e)]);
    AloneLeaves(cl, d, [OpReqOf(e)]);
    hide Run, Next, NewEvent, MsgOf, Fill, MemReturn, OpReqOf, Splits, AnswersWithData, PayloadInBuffer, AnswerFits;
    states, steps := Extended(cl, states, steps, Operate(UNREFUSED));
    states, steps := Extended(cl, states, steps, ClientAnswer(0, true, bytes));
    states, steps := Extended(cl, states, steps, Respond(true));
  }

  lemma AmoReturned(cl: nat, e: Ev, beat: LineBeat, bytes: seq<Byte>)
    requires e == Fill(NewEvent(0, AMO_RD_N, CmdAmoRd, 0, 4, Idle, 0, WRITE_RESP), beat) && |bytes| == 4
    ensures e.typ == CmdAmoRd && e.state == Received && e.context == 0 && e.afutag == 7 && AnswerFits(e, true, bytes)
    ensures var d := MemReturn(e, bytes);
      && d.state == Done && !Splits(cl, d) && d.bytesSent == 0 && PayloadInBuffer(d) && d.hist == []
      && d.came == AMO_RD_N && !d.denied
      && MsgOf(d) == Msg(HostResp(WRITE_RESP, 7, 0, 0, 1, 0), Some(d.data[..64])) && bytes <= d.data[..64]
  {
  }

  lemma AmoArrives(beat: LineBeat)
    ensures HandleCmd(State([], [Some(CLIENT)], Some(AMO_RD_N), Some(beat), [], [], []), 0)
      == Alone([Fill(NewEvent(0, AMO_RD_N, CmdAmoRd, 0, 4, Idle, 0, WRITE_RESP), beat)], CLIENT, [], [])
  {
    AddrZero(AMO_RD_N);
    FoundAlone(AMO_RD_N, CmdAmoRd, 4, Idle, 0, WRITE_RESP, Some(beat));
    hide AddFound, NewEvent, AddrOf, FindByActag, Fill;
  }
}
