/** What the applications are asked (ocse/cmd.c): every request is the one its command came for, stated from the fields
    and beats the AFU sent, and what an application answers to an AMO goes back to the AFU. */
module CmdRequests {
  import opened Common
  import opened TlxPacket
  import opened CmdEngine
  import opened CmdInvariant
  import opened CmdTheorems
  import opened CmdKinds
  import opened CmdCodes

  // ---------- the request a command calls for ----------

  /** The part of a line at an address. */
  function BytesOfLine(line: Line, at: nat, n: nat): seq<Byte>
    requires at < 64 && n <= 64
  {
    (line + Zeros(64))[at..at + n]
  }

  /** The request a command calls for, from how it came and the beats that came for it: a full write brings all of its
      beats, a partial write the bytes of its one beat that its address points at, a write with byte enables its line,
      and an AMO with operands the sixteen bytes its address points at, zeros behind the end of the line. */
  function RequestFor(e: Ev): HostReq
    requires Calls(e)
  {
    var c, n := e.came, LengthOr1(e.came);
    var at := Address(c) % 64;
    match KindOf(c.opcode)
    case FullWrite => WriteReq(e.context, c.afutag, Word(c), Flatten(e.beats))
    case PartWrite => WriteReq(e.context, c.afutag, Word(c), BytesOfLine(e.beats[0], at, n))
    case ByteWrite => WriteBeReq(e.context, c.afutag, Word(c), c.be, e.beats[0])
    case AmoRead => AmoReq(e.context, c.afutag, Word(c), CmdAmoRd, n, c.flag, c.endian, [])
    case AmoSwap =>
      AmoReq(e.context, c.afutag, Word(c), CmdAmoRw, n, c.flag, c.endian, BytesOfLine(e.beats[0], at, 16))
    case AmoWrite =>
      AmoReq(e.context, c.afutag, Word(c), CmdAmoWr, n, c.flag, c.endian, BytesOfLine(e.beats[0], at, 16))
    case _ => ReadReq(e.context, c.afutag, Word(c), n)
  }

  function Word(c: AfuCmd): (a: U64)
    ensures a == Address(c)
  {
    AddressRead(c);
    Address(c)
  }

  /** A memory command of a good length and address that has all of its beats. */
  predicate Calls(e: Ev) {
    var c, k := e.came, KindOf(e.came.opcode);
    && Judge(c) == Accepted && (Reads(k) || Writes(k))
    && LengthOr1(c) <= (if k in {FullRead, FullWrite} then 256 else 64)
    && (k in {PartWrite, ByteWrite, AmoSwap, AmoWrite} ==> |e.beats| == 1)
  }

  lemma LengthsShort(c: AfuCmd)
    requires Judge(c) == Accepted && (Reads(KindOf(c.opcode)) || Writes(KindOf(c.opcode)))
    ensures LengthOr1(c) <= if KindOf(c.opcode) in {FullRead, FullWrite} then 256 else 64
    ensures Length(c) == Some(LengthOr1(c))
    ensures KindOf(c.opcode) in {FullRead, FullWrite} ==> LengthOr1(c) >= 64
    ensures KindOf(c.opcode) in {PartRead, PartWrite} ==> LengthOr1(c) in {1, 2, 4, 8, 16, 32}
    ensures Address(c) % LengthOr1(c) == 0
  {
    Powers();
  }

  // ---------- each handler asks exactly that ----------

  /** What handle_buffer_write asks for a command is what the command came for. */
  lemma ReadCalled(cl: nat, e: Ev)
    requires ValidCl(cl) && Shape(cl, e) && Coded(e) && Picks(ToRead, e) && e.state == Idle
    ensures Calls(e) && ReadReq(e.context, e.afutag, e.addr, e.size) == RequestFor(e)
  {
    LengthsShort(e.came);
    hide Length, Address, LengthOr1;
  }

  lemma WriteCalled(cl: nat, e: Ev)
    requires ValidCl(cl) && Shape(cl, e) && Coded(e) && Picks(ToWrite, e)
    ensures CanWrite(e) && Calls(e)
    ensures WriteReq(e.context, e.afutag, e.addr, WrittenBytes(e)) == RequestFor(e)
  {
    LengthsShort(e.came);
    assert Assembled(e);
    hide Length, Address, LengthOr1, Stored;
    if e.size > 64 {
      assert WrittenBytes(e) == Flatten(e.beats);
    } else if e.size == 64 {
      FlattenSingle(e.beats[0]);
      assert e.beats == [e.beats[0]];
    } else {
      PartialInLine(e.addr, e.size);
      var at := e.addr % 64;
      SameSlice(e.data, e.beats[0], Zeros(64), at, at + e.size);
    }
  }

  lemma SameSlice(data: seq<Byte>, line: Line, behind: seq<Byte>, i: nat, j: nat)
    requires i <= j <= 64 <= |data| && data[..64] == line
    ensures data[i..j] == (line + behind)[i..j]
  {
  }

  lemma OperateCalled(cl: nat, e: Ev)
    requires ValidCl(cl) && Shape(cl, e) && Coded(e) && Picks(ToOperate, e)
    ensures CanOperate(e) && Calls(e) && OpReqOf(e) == RequestFor(e)
  {
    LengthsShort(e.came);
    hide Length, Address, LengthOr1;
    if e.typ == CmdWrBe {
      assert e.data[..e.size] == e.beats[0];
    } else if e.typ in {CmdAmoRw, CmdAmoWr} {
      var at := e.addr % 64;
      assert e.data == e.data[..64] + e.data[64..];
      assert e.data[at..at + 16] == (e.beats[0] + Zeros(64))[at..at + 16];
    }
  }

  /** Whose request a step makes, if it makes one. */
  function Asking(s: State, a: Step): Option<Ev> {
    match a
    case BufferWrite(w) =>
      var i := First(s.list, ToRead);
      if i < |s.list| && s.list[i].state == Idle && Free(s, s.list[i].context) && Unrefused(w) then Some(s.list[i])
      else None
    case WriteCmd(w) =>
      var i := First(s.list, ToWrite);
      if i < |s.list| && Free(s, s.list[i].context) && Unrefused(w) then Some(s.list[i]) else None
    case Operate(w) =>
      var i := First(s.list, ToOperate);
      if i < |s.list| && Free(s, s.list[i].context) && Unrefused(w) then Some(s.list[i]) else None
    case _ => None
  }

  predicate Unrefused(w: Allow) { !w.retry && !w.failed && !w.derror && !w.pending }

  /** A handler asks for the command it selects, when its client is free and nothing refuses it, exactly what the
      command came for, and nothing otherwise. */
  lemma StepAsks(cl: nat, s: State, a: Step)
    requires ValidCl(cl) && Inv(cl, s) && Enabled(cl, s, a) && CodesOk(s)
    ensures Asking(s, a).Some? ==> Calls(Asking(s, a).value)
    ensures Next(cl, s, a).asked
      == s.asked + (if Asking(s, a).Some? then [RequestFor(Asking(s, a).value)] else [])
  {
    assert s.asked + [] == s.asked;
    match a {
      case BufferWrite(w) => ReadAsks(cl, s, w);
      case WriteCmd(w) => WriteAsks(cl, s, w);
      case Operate(w) => OperateAsks(cl, s, w);
      case Parse(pos) => CmdAsksNothing(s, pos);
      case Respond(accept) => hide Answer, CanSend;
      case FinishPending(_, _, _) => hide Finish;
      case _ => hide MemReturn, Aerror, Gather, AfterInterrupt, NoticeBytes;
    }
  }

  lemma ReadAsks(cl: nat, s: State, w: Allow)
    requires ValidCl(cl) && Inv(cl, s) && CodesOk(s)
    ensures var e := Asking(s, BufferWrite(w));
      && (e.Some? ==> Calls(e.value))
      && HandleBufferWrite(s, w).asked == s.asked + if e.Some? then [RequestFor(e.value)] else []
  {
    assert s.asked + [] == s.asked;
    var i := First(s.list, ToRead);
    if Asking(s, BufferWrite(w)).Some? {
      assert Shape(cl, s.list[i]);
      hide Inv, CodesOk, Shape, Calls, RequestFor;
      ReadCalled(cl, s.list[i]);
    }
  }

  lemma WriteAsks(cl: nat, s: State, w: Allow)
    requires ValidCl(cl) && Inv(cl, s) && CodesOk(s) && forall e :: e in s.list && Picks(ToWrite, e) ==> CanWrite(e)
    ensures var e := Asking(s, WriteCmd(w));
      && (e.Some? ==> Calls(e.value))
      && HandleWriteCmd(s, w).asked == s.asked + if e.Some? then [RequestFor(e.value)] else []
  {
    assert s.asked + [] == s.asked;
    var i := First(s.list, ToWrite);
    if Asking(s, WriteCmd(w)).Some? {
      assert Shape(cl, s.list[i]);
      hide Inv, CodesOk, Shape, Calls, RequestFor, WrittenBytes;
      WriteCalled(cl, s.list[i]);
    }
  }

  lemma OperateAsks(cl: nat, s: State, w: Allow)
    requires ValidCl(cl) && Inv(cl, s) && CodesOk(s) && forall e :: e in s.list && Picks(ToOperate, e) ==> CanOperate(e)
    ensures var e := Asking(s, Operate(w));
      && (e.Some? ==> Calls(e.value))
      && HandleOperate(s, w).asked == s.asked + if e.Some? then [RequestFor(e.value)] else []
  {
    hide *;
    OperateIs(s, w);
    if Asking(s, Operate(w)).Some? {
      ListedOk(cl, s, Asking(s, Operate(w)).value);
      OperateCalled(cl, Asking(s, Operate(w)).value);
    }
  }

  lemma ListedOk(cl: nat, s: State, e: Ev)
    requires ValidCl(cl) && Inv(cl, s) && CodesOk(s) && e in s.list
    ensures Shape(cl, e) && Coded(e)
  {
    hide Shape, Coded;
  }

  lemma OperateIs(s: State, w: Allow)
    requires forall e :: e in s.list && Picks(ToOperate, e) ==> CanOperate(e)
    ensures var e := Asking(s, Operate(w));
      && (e.Some? ==> e.value in s.list && Picks(ToOperate, e.value) && CanOperate(e.value))
      && HandleOperate(s, w).asked == s.asked + if e.Some? then [OpReqOf(e.value)] else []
  {
    assert s.asked + [] == s.asked;
    hide OpReqOf, CanOperate;
  }

  lemma CmdAsksNothing(s: State, pos: nat)
    requires pos <= |s.list|
    ensures HandleCmd(s, pos).asked == s.asked
  {
    hide DlToSize, PlToSize, HasTag, FindByActag, AlignmentOf, AddrOf, NewEvent, Fill, AmoBadSize, AssignActag;
  }

  // ---------- runs ----------

  /** A request is that of a command: one that is past the states in which beats come. */
  predicate Serves(q: HostReq, e: Ev) {
    e.state !in {Idle, Buffer} && Calls(e) && q == RequestFor(e)
  }

  ghost predicate HasOwner(s: State, q: HostReq) {
    exists e :: (e in s.list || e in s.retired) && Serves(q, e)
  }

  lemma StillServes(q: HostReq, e: Ev, n: Ev)
    requires Serves(q, e) && Evolves(e, n)
    ensures Serves(q, n)
  {
    hide Judge, KindOf, Length, Address, LengthOr1;
  }

  lemma OwnerStays(s: State, t: State, c: Change, m: Option<Msg>, q: HostReq)
    requires Makes(s, t, c, m) && HasOwner(s, q)
    ensures HasOwner(t, q)
  {
    var e :| (e in s.list || e in s.retired) && Serves(q, e);
    var n := StillThere(s, t, c, m, e);
    if n != e {
      StillServes(q, e, n);
    }
    hide Serves, Evolves, Makes;
  }

  /** No command is lost: it is on the list or among those that have left, as it was or further on. */
  lemma StillThere(s: State, t: State, c: Change, m: Option<Msg>, e: Ev) returns (n: Ev)
    requires Makes(s, t, c, m) && (e in s.list || e in s.retired)
    ensures (n in t.list || n in t.retired) && (n == e || Evolves(e, n))
  {
    if e in s.list {
      var i :| 0 <= i < |s.list| && s.list[i] == e;
      ChangeKeeps(s, t, c, m, i);
      hide Evolves, Makes;
      if exists j :: 0 <= j < |t.list| && Evolves(e, t.list[j]) {
        var j :| 0 <= j < |t.list| && Evolves(e, t.list[j]);
        n := t.list[j];
      } else {
        n := t.retired[|s.retired|];
      }
    } else {
      RetiredStays(s, t, c, m);
      hide Makes;
      n := e;
    }
  }

  lemma RetiredStays(s: State, t: State, c: Change, m: Option<Msg>)
    requires Makes(s, t, c, m)
    ensures s.retired <= t.retired
  {
    hide Evolves;
  }

  /** The command asked for has become one its request serves. */
  lemma AskedServed(cl: nat, s: State, a: Step)
    requires ValidCl(cl) && Inv(cl, s) && Enabled(cl, s, a) && CodesOk(s) && Asking(s, a).Some?
    ensures Calls(Asking(s, a).value) && HasOwner(Next(cl, s, a), RequestFor(Asking(s, a).value))
  {
    StepAsks(cl, s, a);
    hide Inv, CodesOk, Next, Asking, Enabled, Calls, RequestFor;
    var n := AskedBecomes(cl, s, a);
    SameRequest(Asking(s, a).value, n);
  }

  lemma AskedBecomes(cl: nat, s: State, a: Step) returns (n: Ev)
    requires Enabled(cl, s, a) && Asking(s, a).Some?
    ensures var e := Asking(s, a).value;
      && n in Next(cl, s, a).list && n.state !in {Idle, Buffer}
      && n.came == e.came && n.context == e.context && n.beats == e.beats
  {
    var e := Asking(s, a).value;
    n := if a.BufferWrite? then e.(state := Request) else if a.WriteCmd? then e.(state := DmaResp) else e;
    var i := First(s.list, if a.BufferWrite? then ToRead else if a.WriteCmd? then ToWrite else ToOperate);
    hide OpReqOf, WrittenBytes, CanWrite, CanOperate;
    assert Next(cl, s, a).list[i] == n;
  }

  lemma SameRequest(e: Ev, n: Ev)
    requires Calls(e) && n.came == e.came && n.context == e.context && n.beats == e.beats
    ensures Calls(n) && RequestFor(n) == RequestFor(e)
  {
    hide Judge, KindOf, Length, Address, LengthOr1;
  }

  /** In every run every request made to an application is exactly the one called for by a command that came: its
      client, tag, address, length, byte enables, flag, endianness and bytes. */
  lemma {:induction false} RequestsOwned(cl: nat, maxClients: nat, states: seq<State>, steps: seq<Step>, n: nat,
      q: HostReq)
    requires ValidCl(cl) && Run(cl, maxClients, states, steps) && n < |states| && q in states[n].asked
    ensures HasOwner(states[n], q)
  {
    hide Inv, CodesOk, Next, Enabled, HasOwner;
    if n > 0 {
      var s, a := states[n - 1], steps[n - 1];
      RunInv(cl, maxClients, states, steps, n - 1);
      RunCodes(cl, maxClients, states, steps, n - 1);
      assert Enabled(cl, s, a) && states[n] == Next(cl, s, a);
      hide *;
      StepAsks(cl, s, a);
      if q in s.asked {
        RequestsOwned(cl, maxClients, states, steps, n - 1, q);
        var c := StepChanges(cl, s, a);
        OwnerStays(s, states[n], c, AcceptedIn(cl, s, a), q);
      } else {
        AskedServed(cl, s, a);
      }
    }
  }

  // ---------- what an AMO brings back ----------

  lemma AmoInLine(cl: nat, e: Ev)
    requires ValidCl(cl) && Complete(cl, e) && Coded(e) && e.typ in {CmdAmoRd, CmdAmoRw}
    ensures Length(e.came) == Some(|e.returned|) && Address(e.came) % 64 + |e.returned| <= 64
      && e.addr == Address(e.came)
    ensures |e.data| == 256 && |e.hist| == 1 && e.hist[0].data == Some(e.data[..64])
    ensures e.data[e.addr % 64..e.addr % 64 + |e.returned|] == e.returned
  {
    hide *;
    AmoWhole(cl, e);
    AmoIs(e);
    AlignedInLine(e.addr, |e.returned|);
  }

  lemma AmoWhole(cl: nat, e: Ev)
    requires ValidCl(cl) && Complete(cl, e) && e.typ in {CmdAmoRd, CmdAmoRw}
    ensures e.state == Done && |e.data| == 256 && |e.returned| in {4, 8} && e.size == if |e.returned| == 4 then 2 else 3
    ensures |e.hist| == 1 && e.hist[0].data == Some(e.data[..64])
    ensures e.addr % 64 + |e.returned| <= 256 && e.data[e.addr % 64..e.addr % 64 + |e.returned|] == e.returned
  {
  }

  lemma AlignedInLine(addr: nat, size: nat)
    requires size in {4, 8} && addr % size == 0
    ensures addr % 64 + size <= 64
  {
  }

  lemma AmoIs(e: Ev)
    requires Coded(e) && e.typ in {CmdAmoRd, CmdAmoRw} && e.state == Done
    ensures e.addr == Address(e.came) && Length(e.came).Some? && Length(e.came).value in {4, 8}
    ensures e.addr % Length(e.came).value == 0 && e.size == if Length(e.came).value == 4 then 2 else 3
  {
    AmoLengths(e.came);
    LengthsShort(e.came);
    hide Length, Address, LengthOr1;
  }

  /** In every run an amo_rd or amo_rw that was carried out was answered with one line that holds what its application
      returned, as many bytes as it asked for, where its address says. */
  lemma AmoReturned(cl: nat, maxClients: nat, states: seq<State>, steps: seq<Step>, n: nat, i: nat)
    requires ValidCl(cl) && Run(cl, maxClients, states, steps) && n < |states| && i < |states[n].retired|
    requires states[n].retired[i].typ in {CmdAmoRd, CmdAmoRw}
    ensures var e := states[n].retired[i];
      var at := Address(e.came) % 64;
      && Length(e.came) == Some(|e.returned|)
      && |e.hist| == 1 && e.hist[0].data.Some? && |e.hist[0].data.value| == 64
      && at + |e.returned| <= 64 && e.hist[0].data.value[at..at + |e.returned|] == e.returned
  {
    RunInv(cl, maxClients, states, steps, n);
    RunCodes(cl, maxClients, states, steps, n);
    var e := states[n].retired[i];
    assert Complete(cl, e) && Coded(e);
    hide Inv, CodesOk, Run;
    AmoInLine(cl, e);
    hide Complete, Coded, Length, Address;
    var at := e.addr % 64;
    assert e.data[..64][at..at + |e.returned|] == e.data[at..at + |e.returned|];
  }
}
