/** What the applications are told (ocse/cmd.c): every interrupt and wake-up passed on is one that came, stated from the
    bytes the AFU sent. */
module CmdNotices {
  import opened Common
  import opened TlxPacket
  import opened CmdEngine
  import opened CmdInvariant
  import opened CmdTheorems
  import opened CmdInputs
  import opened CmdKinds
  import opened CmdCodes
  import opened CmdRequests

  /** An interrupt or wake-up, with data only if its pl stands for a length. */
  predicate Tells(e: Ev) {
    var k := KindOf(e.came.opcode);
    && k in {Signal, SignalData, Wake}
    && (k == SignalData ==> |e.beats| <= 1 && e.came.pl <= 5)
  }

  /** The message a command calls for, from how it came and the beat that came with it: its kind, its flag, its address
      bytes as they came and, with data, a two-byte length and the bytes of the beat that the address points at, zeros
      behind the end of the line; all zeros when no beat came with it. */
  function NoticeFor(e: Ev): Notice
    requires Tells(e)
  {
    var c := e.came;
    match KindOf(c.opcode)
    case SignalData =>
      Powers();
      var n := Pow2(c.pl);
      var line := if e.beats == [] then Zeros(64) else e.beats[0];
      Notice(e.context, [0x16, c.flag] + c.eaOrObj[..8] + [n, 0] + BytesOfLine(line, Address(c) % 64, n))
    case Wake => Notice(e.context, [0x15, c.flag] + c.eaOrObj[..8])
    case _ => Notice(e.context, [0x13, c.flag] + c.eaOrObj[..8])
  }

  /** Whose message a step sends, if it sends one: that of the first interrupt or wake-up that waits, unless one of the
      four refusals takes its place. */
  function Telling(s: State, a: Step): Option<Ev> {
    if !a.Interrupt? then None
    else
      var i, w := First(s.list, ToInterrupt), a.intr;
      if i == |s.list| || w.retry || w.failed then None
      else if w.pending && KindOf(s.list[i].came.opcode) != Wake then None
      else if w.derror && KindOf(s.list[i].came.opcode) == SignalData then None
      else Some(s.list[i])
  }

  // ---------- each message ----------

  lemma {:induction false} BytesBack(b: seq<Byte>)
    ensures LittleEndian(FromLittleEndian(b), |b|) == b
  {
    if b != [] {
      BytesBack(b[1..]);
    }
  }

  lemma ShortLength(n: nat)
    requires n < 0x100
    ensures LittleEndian(n, 2) == [n, 0]
  {
    assert LittleEndian(0, 1) == [0];
    assert LittleEndian(n, 2) == [n] + LittleEndian(0, 1);
  }

  /** The message handle_interrupt builds is the one its command calls for. */
  lemma NoticeCalled(cl: nat, e: Ev)
    requires ValidCl(cl) && Shape(cl, e) && Coded(e) && Picks(ToInterrupt, e) && CanNotify(e)
    ensures Tells(e) && Notice(e.context, NoticeBytes(e)) == NoticeFor(e)
  {
    var c := e.came;
    BytesBack(c.eaOrObj[..8]);
    NoticeKind(cl, e);
    hide Shape, Coded, LittleEndian, FromLittleEndian, KindOf;
    if e.command == 0x5a {
      Powers();
      ShortLength(e.size);
      var at := e.addr % 64;
      var line := if e.beats == [] then Zeros(64) else e.beats[0];
      CutFromLine(e.data, line, at, at + e.size);
    }
  }

  lemma CutFromLine(data: seq<Byte>, line: Line, i: nat, j: nat)
    requires i <= j <= 128 && |data| == 256 && data[..64] == line && data[64..] == Zeros(192)
    ensures data[i..j] == (line + Zeros(64))[i..j]
  {
    assert data == line + Zeros(192);
  }

  lemma NoticeKind(cl: nat, e: Ev)
    requires ValidCl(cl) && Shape(cl, e) && Coded(e) && Picks(ToInterrupt, e) && CanNotify(e)
    ensures Tells(e) && e.addr == Address(e.came) && e.flag == e.came.flag && e.command == e.came.opcode
    ensures e.typ == CmdWake <==> KindOf(e.came.opcode) == Wake
    ensures e.command == 0x5a <==> KindOf(e.came.opcode) == SignalData
    ensures e.command == 0x5a ==> Blank(e) && e.size == Pow2(e.came.pl)
  {
    Powers();
    hide Address;
  }

  // ---------- each step ----------

  /** A step sends the message of the command it passes on, exactly that, and otherwise none. */
  lemma StepTells(cl: nat, s: State, a: Step)
    requires ValidCl(cl) && Inv(cl, s) && Enabled(cl, s, a) && CodesOk(s)
    ensures Telling(s, a).Some? ==> Tells(Telling(s, a).value)
    ensures Next(cl, s, a).notices
      == s.notices + (if Telling(s, a).Some? then [NoticeFor(Telling(s, a).value)] else [])
  {
    assert s.notices + [] == s.notices;
    match a {
      case Interrupt(w) => InterruptTells(cl, s, w);
      case Parse(pos) => CmdTellsNothing(s, pos);
      case Respond(accept) => hide Answer, CanSend;
      case FinishPending(_, _, _) => hide Finish;
      case _ => hide MemReturn, Aerror, Gather, WrittenBytes, OpReqOf, CanWrite, CanOperate;
    }
  }

  lemma InterruptTells(cl: nat, s: State, w: Allow)
    requires ValidCl(cl) && Inv(cl, s) && CodesOk(s) && CanInterrupt(s, w)
    ensures var e := Telling(s, Interrupt(w));
      && (e.Some? ==> Tells(e.value))
      && HandleInterrupt(s, w).notices == s.notices + if e.Some? then [NoticeFor(e.value)] else []
  {
    assert s.notices + [] == s.notices;
    var i := First(s.list, ToInterrupt);
    if i < |s.list| {
      ListedOk(cl, s, s.list[i]);
      hide Inv, CodesOk, Tells, NoticeFor, NoticeBytes, CanNotify;
      WaitingKind(cl, s.list[i]);
      hide Shape, Coded, KindOf, Picks;
      if Telling(s, Interrupt(w)).Some? {
        NoticeCalled(cl, s.list[i]);
      }
    }
  }

  lemma WaitingKind(cl: nat, e: Ev)
    requires ValidCl(cl) && Shape(cl, e) && Coded(e) && Picks(ToInterrupt, e)
    ensures e.typ == CmdWake <==> KindOf(e.came.opcode) == Wake
    ensures e.command == 0x5a <==> KindOf(e.came.opcode) == SignalData
  {
    hide Address, Length;
  }

  lemma CmdTellsNothing(s: State, pos: nat)
    requires pos <= |s.list|
    ensures HandleCmd(s, pos).notices == s.notices
  {
    hide DlToSize, PlToSize, HasTag, FindByActag, AlignmentOf, AddrOf, NewEvent, Fill, AmoBadSize, AssignActag;
  }

  // ---------- runs ----------

  /** A message is that of a command past the states in which beats come. */
  predicate ToldOf(q: Notice, e: Ev) {
    e.state !in {Idle, Buffer} && Tells(e) && q == NoticeFor(e)
  }

  ghost predicate HasTeller(s: State, q: Notice) {
    exists e :: (e in s.list || e in s.retired) && ToldOf(q, e)
  }

  lemma SameNotice(e: Ev, n: Ev)
    requires Tells(e) && n.came == e.came && n.context == e.context && n.beats == e.beats
    ensures Tells(n) && NoticeFor(n) == NoticeFor(e)
  {
    hide KindOf, Address;
  }

  lemma TellerStays(s: State, t: State, c: Change, m: Option<Msg>, q: Notice)
    requires Makes(s, t, c, m) && HasTeller(s, q)
    ensures HasTeller(t, q)
  {
    var e :| (e in s.list || e in s.retired) && ToldOf(q, e);
    var n := StillThere(s, t, c, m, e);
    hide Makes, Tells, NoticeFor;
    if n != e {
      SameNotice(e, n);
    }
    assert ToldOf(q, n);
  }

  lemma TellingBecomes(cl: nat, s: State, a: Step) returns (n: Ev)
    requires Enabled(cl, s, a) && Telling(s, a).Some?
    requires forall e :: e in s.list && Picks(ToInterrupt, e) ==> (e.typ == CmdWake <==> KindOf(e.came.opcode) == Wake)
    ensures var e := Telling(s, a).value;
      && n in Next(cl, s, a).list && n.state !in {Idle, Buffer}
      && n.came == e.came && n.context == e.context && n.beats == e.beats
  {
    var i := First(s.list, ToInterrupt);
    n := AfterInterrupt(s.list[i], a.intr);
    hide NoticeBytes, CanNotify, KindOf;
    assert Next(cl, s, a).list[i] == n;
  }

  lemma Passed(cl: nat, s: State, a: Step)
    requires ValidCl(cl) && Inv(cl, s) && Enabled(cl, s, a) && CodesOk(s) && Telling(s, a).Some?
    ensures Tells(Telling(s, a).value) && HasTeller(Next(cl, s, a), NoticeFor(Telling(s, a).value))
  {
    StepTells(cl, s, a);
    forall e | e in s.list && Picks(ToInterrupt, e)
      ensures e.typ == CmdWake <==> KindOf(e.came.opcode) == Wake
    {
      ListedOk(cl, s, e);
      WaitingKind(cl, e);
    }
    hide Inv, CodesOk, Next, Telling, Enabled, Tells, NoticeFor, Shape, Coded;
    var n := TellingBecomes(cl, s, a);
    SameNotice(Telling(s, a).value, n);
  }

  /** In every run every interrupt and wake-up an application is sent is exactly the one called for by a command that
      came: its client, kind, flag, address bytes and data. */
  lemma {:induction false} NoticesOwned(cl: nat, maxClients: nat, states: seq<State>, steps: seq<Step>, n: nat,
      q: Notice)
    requires ValidCl(cl) && Run(cl, maxClients, states, steps) && n < |states| && q in states[n].notices
    ensures HasTeller(states[n], q)
  {
    hide Inv, CodesOk, Next, Enabled, HasTeller;
    if n > 0 {
      var s, a := states[n - 1], steps[n - 1];
      RunInv(cl, maxClients, states, steps, n - 1);
      RunCodes(cl, maxClients, states, steps, n - 1);
      assert Enabled(cl, s, a) && states[n] == Next(cl, s, a);
      hide *;
      StepTells(cl, s, a);
      if q in s.notices {
        NoticesOwned(cl, maxClients, states, steps, n - 1, q);
        var c := StepChanges(cl, s, a);
        TellerStays(s, states[n], c, AcceptedIn(cl, s, a), q);
      } else {
        Passed(cl, s, a);
      }
    }
  }

  // ---------- an interrupt without its beat ----------

  /** An accepted interrupt with data gets its beat if and only if the beat came with it and no write was being
      assembled; without it the application is told zeros. */
  lemma BeatExactly(s: State, pos: nat)
    requires pos <= |s.list| && s.cmd.Some? && s.cmd.value.opcode == 0x5a
    requires !HasTag(s.list, s.cmd.value.afutag) && FindByActag(s.clients, s.cmd.value.actag).Some?
    ensures var c, t := s.cmd.value, HandleCmd(s, pos);
      && |t.list| == |s.list| + 1 && t.list[pos].came == c
      && (t.list[pos].beats == [] <==> s.cdata.None? || DataExpected(s.list))
      && (t.list[pos].beats != [] ==> t.list[pos].beats == [s.cdata.value.bytes])
  {
    hide HasTag, FindByActag, DataExpected, AddrOf, PlToSize;
    var taken := s.(cmd := None, cdata := None);
    assert HandleCmd(s, pos) == ParseCmd(taken, s.cmd.value, s.cdata, pos);
  }

  /** intrp_req.d of one byte at address 0. */
  const SHORT_INTERRUPT := AfuCmd(0x5a, 0, 0, OBJ, 7, 0, 0, 0, 0, 0, 0, 0, 0)

  lemma ShortArrives()
    ensures var e := NewEvent(0, SHORT_INTERRUPT, CmdInterrupt, 0, 1, Idle, 0, INTRP_RESP);
      && HandleCmd(State([], [Some(CLIENT)], Some(SHORT_INTERRUPT), None, [], [], []), 0) == Alone([e], CLIENT, [], [])
      && e.came == SHORT_INTERRUPT && e.beats == [] && e.context == 0 && CanNotify(e) && Picks(ToInterrupt, e)
      && NoticeBytes(e) == [0x16, 0, 0, 0, 0, 0, 0, 0, 0, 0, 1, 0, 0]
  {
    AddrZero(SHORT_INTERRUPT);
    FoundAlone(SHORT_INTERRUPT, CmdInterrupt, 1, Idle, 0, INTRP_RESP, None);
    hide AddFound, AddrOf, FindByActag;
    var e := NewEvent(0, SHORT_INTERRUPT, CmdInterrupt, 0, 1, Idle, 0, INTRP_RESP);
    ShortLength(1);
    ZeroBytes(8);
    assert Zeros(8) == [0, 0, 0, 0, 0, 0, 0, 0];
    assert e.data[0..1] == e.data[..64][0..1] == [0];
  }

  lemma {:induction false} ZeroBytes(k: nat)
    ensures LittleEndian(0, k) == Zeros(k)
  {
    if k > 0 {
      ZeroBytes(k - 1);
    }
  }

  /** The failing input: an interrupt with data whose beat comes on the next clock. The application has been told a
      zero, and the beat is still there for whatever comes next. */
  lemma BeatComesLate(cl: nat, beat: LineBeat) returns (states: seq<State>, steps: seq<Step>)
    requires ValidCl(cl)
    ensures Run(cl, 1, states, steps)
    ensures var t := states[|steps|];
      && t.notices == [Notice(0, [0x16, 0, 0, 0, 0, 0, 0, 0, 0, 0, 1, 0, 0])]
      && t.cdata == Some(beat) && |t.list| == 1 && t.list[0].came == SHORT_INTERRUPT
  {
    ShortArrives();
    var e := NewEvent(0, SHORT_INTERRUPT, CmdInterrupt, 0, 1, Idle, 0, INTRP_RESP);
    states, steps := Arrives(cl, SHORT_INTERRUPT, None, e);
    hide Run, NewEvent, NoticeBytes, CanNotify;
    assert First([e], ToInterrupt) == 0 && !IntrRefused(e, UNREFUSED);
    states, steps := Extended(cl, states, steps, Interrupt(UNREFUSED));
    states, steps := Extended(cl, states, steps, Receive(None, Some(beat)));
  }
}
