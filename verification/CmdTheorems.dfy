/** The command engine over whole runs: every order of handler steps, every choice and every refusal. */
module CmdTheorems {
  import opened Common
  import opened TlxPacket
  import TlxEvent
  import opened CmdEngine
  import opened CmdInvariant

  datatype Step =
    | Receive(cmd: Option<AfuCmd>, cdata: Option<LineBeat>)   // tlx_get_afu_events
    | Respond(accept: bool)
    | BufferWrite(read: Allow)
    | FinishPending(pick: Option<nat>, posted: Allow, ok: bool)
    | Parse(pos: nat)
    | CmdData
    | WriteCmd(write: Allow)
    | Interrupt(intr: Allow)
    | Operate(op: Allow)
    | ClientAnswer(context: nat, success: bool, bytes: seq<Byte>)
    | Attach(slot: nat, bdf: U16, pasid: U32)

  function Initial(maxClients: nat): State {
    State([], seq(maxClients, _ => None), None, None, [], [], [])
  }

  /** What an application owes: an answer carries as many bytes as the access asks for. */
  predicate BytesAsked(s: State, context: nat, bytes: seq<Byte>)
    requires context < |s.clients| && s.clients[context].Some?
  {
    var a := s.clients[context].value.access;
    a.Some? && HasTag(s.list, a.value) ==> |bytes| == s.list[TagIndex(s.list, a.value)].size
  }

  /** Where each handler is defined: its buffer accesses are in bounds and its pointers name list elements. */
  predicate Enabled(cl: nat, s: State, a: Step) {
    match a
    case Respond(_) => CanRespond(cl, s)
    case Parse(pos) => pos <= |s.list|
    case FinishPending(pick, _, _) => Pickable(s, pick)
    case CmdData => forall e :: e in s.list && Picks(ToFill, e) ==> CanFill(e)
    case WriteCmd(_) => forall e :: e in s.list && Picks(ToWrite, e) ==> CanWrite(e)
    case Interrupt(w) => CanInterrupt(s, w)
    case Operate(_) => forall e :: e in s.list && Picks(ToOperate, e) ==> CanOperate(e)
    case ClientAnswer(context, ok, bytes) => CanAnswer(s, context, ok, bytes)
    case Attach(slot, _, _) => slot < |s.clients| && s.clients[slot].None?
    case _ => true
  }

  function Next(cl: nat, s: State, a: Step): State
    requires Enabled(cl, s, a)
  {
    match a
    case Receive(cmd, cdata) => s.(cmd := cmd, cdata := cdata)
    case Respond(accept) => HandleResponse(cl, s, accept)
    case BufferWrite(w) => HandleBufferWrite(s, w)
    case FinishPending(pick, w, ok) => HandlePendingSent(s, pick, w, ok)
    case Parse(pos) => HandleCmd(s, pos)
    case CmdData => HandleCmdData(s)
    case WriteCmd(w) => HandleWriteCmd(s, w)
    case Interrupt(w) => HandleInterrupt(s, w)
    case Operate(w) => HandleOperate(s, w)
    case ClientAnswer(context, success, bytes) => HandleAnswer(s, context, success, bytes)
    case Attach(slot, bdf, pasid) => s.(clients := s.clients[slot := Some(Client(0, bdf, pasid, None, 0))])
  }

  /** Every interrupt that handle_interrupt has yet to pass on fits its message. */
  predicate NoticesFit(list: seq<Ev>) {
    forall e :: e in list && Picks(ToInterrupt, e) ==> CanNotify(e)
  }

  /** No handler leaves a buffer or follows a stale pointer: given applications that answer with the bytes asked for
      and interrupts that fit their message, every handler is defined in every state that keeps the invariant. */
  lemma HandlersDefined(cl: nat, s: State, a: Step)
    requires ValidCl(cl) && Inv(cl, s) && (a.Interrupt? ==> NoticesFit(s.list))
    requires a.ClientAnswer? ==>
      a.context < |s.clients| && s.clients[a.context].Some? && BytesAsked(s, a.context, a.bytes)
    requires a.Parse? ==> a.pos <= |s.list|
    requires a.FinishPending? ==> Pickable(s, a.pick)
    requires a.Attach? ==> a.slot < |s.clients| && s.clients[a.slot].None?
    ensures Enabled(cl, s, a)
  {
    match a
    case Respond(_) => RespondEnabled(cl, s);
    case CmdData => CmdDataInv(cl, s);
    case WriteCmd(w) => WriteCmdInv(cl, s, w);
    case Operate(_) => OperateEnabled(cl, s);
    case ClientAnswer(context, success, bytes) => AnswerEnabled(cl, s, context, success, bytes);
    case _ =>
  }

  lemma InitialInv(cl: nat, maxClients: nat)
    requires ValidCl(cl)
    ensures Inv(cl, Initial(maxClients))
  {
  }

  lemma AttachInv(cl: nat, s: State, slot: nat, c: Client)
    requires ValidCl(cl) && Inv(cl, s) && slot < |s.clients| && s.clients[slot].None?
    requires c.access.None? && c.unanswered == 0
    ensures Inv(cl, s.(clients := s.clients[slot := Some(c)]))
  {
  }

  lemma NextInv(cl: nat, s: State, a: Step)
    requires ValidCl(cl) && Inv(cl, s) && Enabled(cl, s, a)
    ensures Inv(cl, Next(cl, s, a))
  {
    match a {
      case Receive(cmd, cdata) => SameList(cl, s, s.(cmd := cmd, cdata := cdata));
      case Respond(accept) => ResponseInv(cl, s, accept);
      case BufferWrite(w) => BufferWriteInv(cl, s, w);
      case FinishPending(pick, w, ok) => PendingSentInv(cl, s, pick, w, ok);
      case Parse(pos) => CmdInv(cl, s, pos);
      case CmdData => CmdDataInv(cl, s);
      case WriteCmd(w) => WriteCmdInv(cl, s, w);
      case Interrupt(w) => InterruptInv(cl, s, w);
      case Operate(w) => OperateInv(cl, s, w);
      case ClientAnswer(context, success, bytes) => AnswerStepInv(cl, s, context, success, bytes);
      case Attach(slot, bdf, pasid) => AttachInv(cl, s, slot, Client(0, bdf, pasid, None, 0));
    }
  }

  predicate Run(cl: nat, maxClients: nat, states: seq<State>, steps: seq<Step>) {
    && |states| == |steps| + 1 && states[0] == Initial(maxClients)
    && forall i :: 0 <= i < |steps| ==>
         Enabled(cl, states[i], steps[i]) && states[i + 1] == Next(cl, states[i], steps[i])
  }

  lemma {:induction false} RunInv(cl: nat, maxClients: nat, states: seq<State>, steps: seq<Step>, n: nat)
    requires ValidCl(cl) && Run(cl, maxClients, states, steps) && n < |states|
    ensures Inv(cl, states[n])
  {
    hide Inv, Next, Enabled;
    if n == 0 {
      InitialInv(cl, maxClients);
    } else {
      RunInv(cl, maxClients, states, steps, n - 1);
      NextInv(cl, states[n - 1], steps[n - 1]);
    }
  }

  // ---------- one host access per client ----------

  predicate PointsSafely(list: seq<Ev>, i: int, tag: U16, context: nat) {
    PointsTo(list, i, tag, context) && !Picks(ToRespond, list[i]) && list[i].state != PendingSent
  }

  /** In every state of every run a client has at most one unanswered request; the command it belongs to is on
      the list, alone in naming it, and in no state from which it could be answered and freed. */
  lemma OneAccessPerClient(cl: nat, maxClients: nat, states: seq<State>, steps: seq<Step>, n: nat, context: nat)
    requires ValidCl(cl) && Run(cl, maxClients, states, steps) && n < |states|
    requires context < |states[n].clients| && states[n].clients[context].Some?
    ensures var c := states[n].clients[context].value;
      && c.unanswered == (if c.access.Some? then 1 else 0)
      && (c.access.Some? ==> exists i :: PointsSafely(states[n].list, i, c.access.value, context))
  {
    RunInv(cl, maxClients, states, steps, n);
    var s := states[n];
    var c := s.clients[context].value;
    assert ClientOk(s.list, c, context);
    if c.access.Some? {
      var i :| PointsTo(s.list, i, c.access.value, context);
      assert PointsSafely(s.list, i, c.access.value, context);
    }
  }

  /** In every state of every run at most one command is in MEM_BUFFER: a write whose buffer holds exactly the beats
      so far, in order, dpartial of them. */
  lemma OneWriteGathering(cl: nat, maxClients: nat, states: seq<State>, steps: seq<Step>, n: nat, i: nat)
    requires ValidCl(cl) && Run(cl, maxClients, states, steps) && n < |states|
    requires i < |states[n].list| && states[n].list[i].state == Buffer
    ensures states[n].list[i].typ == CmdWrite && Gathering(states[n].list[i])
    ensures forall j :: 0 <= j < |states[n].list| && states[n].list[j].state == Buffer ==> j == i
  {
    RunInv(cl, maxClients, states, steps, n);
    var s := states[n];
    assert Shape(cl, s.list[i]);
    forall j | 0 <= j < |s.list| && s.list[j].state == Buffer ensures j == i {
      assert Shape(cl, s.list[j]) && Picks(ToFill, s.list[j]) && Picks(ToFill, s.list[i]);
    }
  }

  // ---------- every command completes once ----------

  /** A command as a later state has it: its answers only grow; MEM_DONE is never left, nor its data changed. */
  predicate Evolves(e: Ev, n: Ev) {
    && n.afutag == e.afutag && n.context == e.context && n.command == e.command && n.came == e.came
    && (e.state !in {Idle, Buffer} ==> n.state !in {Idle, Buffer} && n.beats == e.beats)
    && e.hist <= n.hist && e.beats <= n.beats
    && (e.state == Done ==> n.state == Done && n.typ == e.typ && n.data == e.data)
  }

  /** What one step does to the list. */
  datatype Change = Same | Replaced(i: nat, e: Ev) | Removed(j: nat, r: Ev) | Inserted(pos: nat, n: Ev)

  /** The change c, in a step in which the link accepts the message m, if any: it enters the history of the command
      it answers, and no other history changes. */
  predicate Makes(s: State, t: State, c: Change, m: Option<Msg>) {
    match c
    case Same => t.list == s.list && t.retired == s.retired && m.None?
    case Replaced(i, e) =>
      && i < |s.list| && Evolves(s.list[i], e) && e.hist == s.list[i].hist + Opt(m)
      && t.list == s.list[i := e] && t.retired == s.retired
    case Removed(i, e) =>
      && i < |s.list| && Evolves(s.list[i], e) && m.Some? && e.hist == s.list[i].hist + [m.value]
      && t.list == Remove(s.list, i) && t.retired == s.retired + [e]
    case Inserted(pos, e) =>
      && pos <= |s.list| && !HasTag(s.list, e.afutag) && e.hist == [] && m.None?
      && t.list == Insert(s.list, pos, e) && t.retired == s.retired
  }

  /** What handle_response hands to the link, and handle_xlate_intrp_pending_sent, when the link accepts it. */
  function Answering(cl: nat, s: State): Option<Msg>
    requires CanRespond(cl, s)
  {
    var i := First(s.list, ToRespond);
    if i < |s.list| then Some(MsgOf(NextPart(cl, s.list[i]))) else None
  }

  function Posting(s: State, pick: Option<nat>, a: Allow): Option<Msg>
    requires Pickable(s, pick)
  {
    if pick.None? || (!a.retry && a.failed) then None
    else Some(PostedFor(s.list[pick.value].(resp := if a.retry then 0x02 else 0)))
  }

  /** The message the link accepts in a step. */
  function AcceptedIn(cl: nat, s: State, a: Step): Option<Msg>
    requires Enabled(cl, s, a)
  {
    match a
    case Respond(accept) => if accept then Answering(cl, s) else None
    case FinishPending(pick, posted, ok) => if ok then Posting(s, pick, posted) else None
    case _ => None
  }

  lemma AnswerChanges(cl: nat, e: Ev, accept: bool)
    requires CanSend(cl, e)
    ensures var f := Answer(cl, e, accept);
      && Evolves(e, f.e) && (f.Leaves? ==> accept)
      && f.e.hist == e.hist + (if accept then [MsgOf(NextPart(cl, e))] else [])
  {
  }

  lemma FinishChanges(e: Ev, a: Allow, accept: bool)
    ensures var f := Finish(e, a, accept);
      && Evolves(e, f.e) && (f.Leaves? <==> accept && (a.retry || !a.failed))
      && f.e.hist == e.hist + (if f.Leaves? then [PostedFor(e.(resp := if a.retry then 0x02 else 0))] else [])
  {
  }

  lemma AddChanges(s: State, e: Ev, beat: Option<LineBeat>, pos: nat) returns (c: Change)
    requires pos <= |s.list| && !HasTag(s.list, e.afutag) && e.hist == []
    ensures Makes(s, AddCmd(s, e, beat, pos), c, None)
  {
    c := if beat.Some? && !DataExpected(s.list) then Inserted(pos, Fill(e, beat.value)) else Inserted(pos, e);
  }

  lemma AddCheckedChanges(s: State, c: AfuCmd, typ: CmdType, size: int, eventSize: int, state: MemState, failed: Byte,
      ok: Byte,
                          beat: Option<LineBeat>, pos: nat) returns (g: Change)
    requires pos <= |s.list| && (size == -1 || size > 0) && (size > 0 ==> eventSize >= 0) && !HasTag(s.list, c.afutag)
    ensures Makes(s, AddChecked(s, c, typ, size, eventSize, state, failed, ok, beat, pos), g, None)
  {
    var f := FindByActag(s.clients, c.actag);
    hide HasTag, AddCmd, FindByActag;
    if f.None? {
      g := Same;
    } else if AlignmentOf(AddrOf(c), size) == Aligned {
      g := AddChanges(s, NewEvent(f.value, c, typ, AddrOf(c), eventSize, state, 0, ok), beat, pos);
    } else {
      var code := if AlignmentOf(AddrOf(c), size) == BadSize then 0x09 else 0x0b;
      g := AddChanges(s, NewEvent(f.value, c, CmdFailed, 0, 0, Done, code, failed), None, pos);
    }
  }

  lemma AddAmoChanges(s: State, c: AfuCmd, beat: Option<LineBeat>, pos: nat) returns (g: Change)
    requires pos <= |s.list| && !HasTag(s.list, c.afutag)
    ensures Makes(s, AddAmo(s, c, beat, pos), g, None)
  {
    var f := FindByActag(s.clients, c.actag);
    hide HasTag, AddCmd, FindByActag;
    var asRead := IsAmoRw(c.opcode) || c.opcode == 0x38;
    var size := if c.pl in {2, 6} then 4 else 8;
    if f.None? {
      g := Same;
    } else if AmoBadSize(c).Some? {
      g := AddChanges(s, NewEvent(f.value, c, CmdFailed, 0, 0, Done, 0x09, AmoBadSize(c).value), None, pos);
    } else if AddrOf(c) % size != 0 {
      g := AddChanges(s, NewEvent(f.value, c, CmdFailed, 0, 0, Done, 0x0b,
          if asRead then READ_FAILED else WRITE_FAILED), None, pos);
    } else {
      g := AddChanges(s, NewEvent(f.value, c, AmoType(c.opcode), AddrOf(c), size, Idle, 0,
          if asRead then READ_RESP else WRITE_RESP), beat, pos);
    }
  }

  lemma AddInterruptChanges(s: State, c: AfuCmd, size: int, beat: Option<LineBeat>, pos: nat) returns (g: Change)
    requires pos <= |s.list| && size >= -1 && !HasTag(s.list, c.afutag)
    ensures Makes(s, AddInterrupt(s, c, size, beat, pos), g, None)
  {
    var f := FindByActag(s.clients, c.actag);
    hide HasTag, AddCmd, FindByActag;
    if f.None? {
      g := Same;
    } else {
      var wake := c.opcode == 0x5c;
      g := AddChanges(s, NewEvent(f.value, c, if wake then CmdWake else CmdInterrupt, AddrOf(c),
                                  if size == -1 then 65535 else size, Idle, 0,
                                      if wake then WAKE_RESP else INTRP_RESP), beat, pos);
    }
  }

  lemma ParseChanges(s: State, c: AfuCmd, beat: Option<LineBeat>, pos: nat) returns (g: Change)
    requires pos <= |s.list| && !HasTag(s.list, c.afutag)
    ensures Makes(s, ParseCmd(s, c, beat, pos), g, None)
  {
    var r := s.(cdata := beat);
    var o := c.opcode;
    hide HasTag, AddChecked, AddAmo, AddInterrupt, FindByActag, AddCmd, Evolves;
    g := Same;
    if IsRead(o) {
      g := AddCheckedChanges(r, c, CmdRead, DlToSize(c.dl), DlToSize(c.dl), Idle, READ_FAILED, READ_RESP, None, pos);
    } else if IsPartialRead(o) {
      g := AddCheckedChanges(r, c, CmdRead, PlToSize(c.pl), PlToSize(c.pl), Idle, READ_FAILED, READ_RESP, None, pos);
    } else if IsWrite(o) {
      g := AddCheckedChanges(s, c, CmdWrite, DlToSize(c.dl), DlToSize(c.dl), Idle, WRITE_FAILED, WRITE_RESP, beat, pos);
    } else if IsPartialWrite(o) {
      g := AddCheckedChanges(s, c, CmdWrite, PlToSize(c.pl), PlToSize(c.pl), Idle, WRITE_FAILED, WRITE_RESP, beat, pos);
    } else if IsWriteBe(o) {
      g := AddCheckedChanges(s, c, CmdWrBe, 64, 64, Idle, WRITE_FAILED, WRITE_RESP, beat, pos);
    } else if IsAmoRd(o) || IsAmoRw(o) || IsAmoW(o) {
      g := AddAmoChanges(s, c, beat, pos);
    } else if IsInterrupt(o) {
      g := AddInterruptChanges(s, c, if o == 0x5a then PlToSize(c.pl) else 0, beat, pos);
    } else if IsTouch(o) {
      g := AddCheckedChanges(r, c, CmdTouch, 64, 0, Done, TOUCH_RESP, TOUCH_RESP, None, pos);
    } else if o != 0 && o != 0x50 {
      var f := FindByActag(s.clients, c.actag);
      if f.Some? {
        g := AddChanges(s, NewEvent(f.value, c, CmdFailed, 0, 0, Done, RESPONSE_FAILED, RESPONSE_FAILED), None, pos);
      }
    }
  }

  lemma ResolveChanges(s: State, i: nat, f: Fate, m: Option<Msg>) returns (c: Change)
    requires i < |s.list| && Evolves(s.list[i], f.e) && (f.Leaves? ==> m.Some?)
    requires f.e.hist == s.list[i].hist + Opt(m)
    ensures Makes(s, Resolve(s, i, f), c, m)
  {
    c := if f.Stays? then Replaced(i, f.e) else Removed(i, f.e);
  }

  /** Every step leaves the list alone, moves one command on, completes one, or adds one under a new tag; and the
      message the link accepts in it, if any, is what that command's history gains. */
  lemma StepChanges(cl: nat, s: State, a: Step) returns (c: Change)
    requires ValidCl(cl) && Inv(cl, s) && Enabled(cl, s, a)
    ensures Makes(s, Next(cl, s, a), c, AcceptedIn(cl, s, a))
  {
    c := Same;
    match a {
      case Respond(accept) =>
        var i := First(s.list, ToRespond);
        if i < |s.list| {
          AnswerChanges(cl, s.list[i], accept);
          c := ResolveChanges(s, i, Answer(cl, s.list[i], accept), AcceptedIn(cl, s, a));
        }
      case FinishPending(pick, w, ok) =>
        if pick.Some? {
          FinishChanges(s.list[pick.value], w, ok);
          c := ResolveChanges(s, pick.value, Finish(s.list[pick.value], w, ok), AcceptedIn(cl, s, a));
        }
      case Parse(pos) =>
        if s.cmd.Some? && !HasTag(s.list, s.cmd.value.afutag) {
          c := ParseChanges(s.(cmd := None, cdata := None), s.cmd.value, s.cdata, pos);
        }
      case ClientAnswer(context, ok, bytes) =>
        c := ClientChanges(cl, s, context, ok, bytes);
      case BufferWrite(w) => c := ReadChanges(s, w);
      case CmdData => c := DataChanges(s);
      case WriteCmd(w) => c := WriteChanges(s, w);
      case Interrupt(w) => c := InterruptChanges(s, w);
      case Operate(w) => c := OperateChanges(s, w);
      case _ =>
    }
  }

  lemma ClientChanges(cl: nat, s: State, context: nat, ok: bool, bytes: seq<Byte>) returns (c: Change)
    requires ValidCl(cl) && Inv(cl, s) && CanAnswer(s, context, ok, bytes)
    ensures Makes(s, HandleAnswer(s, context, ok, bytes), c, None)
  {
    c := Same;
    var a := s.clients[context].value.access;
    if a.Some? {
      AccessedEvent(cl, s, context);
      var i := TagIndex(s.list, a.value);
      assert s.list[i].state != Done;
      hide Inv, Shape;
      c := Replaced(i, if ok then MemReturn(s.list[i], bytes) else Aerror(s.list[i]));
    }
  }

  lemma ReadChanges(s: State, w: Allow) returns (c: Change)
    ensures Makes(s, HandleBufferWrite(s, w), c, None)
  {
    c := Same;
    var i := First(s.list, ToRead);
    if i < |s.list| && HandleBufferWrite(s, w).list != s.list {
      c := Replaced(i, HandleBufferWrite(s, w).list[i]);
    }
  }

  lemma DataChanges(s: State) returns (c: Change)
    requires forall e :: e in s.list && Picks(ToFill, e) ==> CanFill(e)
    ensures Makes(s, HandleCmdData(s), c, None)
  {
    c := Same;
    var i := First(s.list, ToFill);
    if i < |s.list| && s.cdata.Some? {
      c := Replaced(i, HandleCmdData(s).list[i]);
    }
  }

  lemma WriteChanges(s: State, w: Allow) returns (c: Change)
    requires forall e :: e in s.list && Picks(ToWrite, e) ==> CanWrite(e)
    ensures Makes(s, HandleWriteCmd(s, w), c, None)
  {
    c := Same;
    var i := First(s.list, ToWrite);
    if i < |s.list| && Free(s, s.list[i].context) {
      c := Replaced(i, HandleWriteCmd(s, w).list[i]);
    }
  }

  lemma InterruptChanges(s: State, w: Allow) returns (c: Change)
    requires CanInterrupt(s, w)
    ensures Makes(s, HandleInterrupt(s, w), c, None)
  {
    c := Same;
    var i := First(s.list, ToInterrupt);
    if i < |s.list| {
      c := Replaced(i, HandleInterrupt(s, w).list[i]);
    }
  }

  lemma OperateChanges(s: State, w: Allow) returns (c: Change)
    requires forall e :: e in s.list && Picks(ToOperate, e) ==> CanOperate(e)
    ensures Makes(s, HandleOperate(s, w), c, None)
  {
    c := Same;
    var i := First(s.list, ToOperate);
    if i < |s.list| && Free(s, s.list[i].context) {
      c := Replaced(i, HandleOperate(s, w).list[i]);
    }
  }

  /** A command as the next state has it: still on the list, or the one that just left. */
  ghost predicate Survives(s: State, t: State, e: Ev) {
    || (exists j :: 0 <= j < |t.list| && Evolves(e, t.list[j]))
    || (|t.retired| == |s.retired| + 1 && Evolves(e, t.retired[|s.retired|]))
  }

  lemma ChangeKeeps(s: State, t: State, c: Change, m: Option<Msg>, i: nat)
    requires Makes(s, t, c, m) && i < |s.list|
    ensures s.retired <= t.retired && Survives(s, t, s.list[i])
  {
    var e := s.list[i];
    match c {
      case Same => assert Evolves(e, t.list[i]);
      case Replaced(k, _) => assert Evolves(e, t.list[i]);
      case Removed(k, _) =>
        if i != k {
          assert Evolves(e, t.list[if i < k then i else i - 1]);
        }
      case Inserted(k, _) => assert Evolves(e, t.list[if i < k then i else i + 1]);
    }
  }

  /** In any run, a command seen on the list is in the next state still there with its answers so far, or has just
      left; MEM_DONE is left only by leaving; and what has left never changes or comes back. */
  lemma CommandPersists(cl: nat, maxClients: nat, states: seq<State>, steps: seq<Step>, n: nat, i: nat)
    requires ValidCl(cl) && Run(cl, maxClients, states, steps) && n < |steps| && i < |states[n].list|
    ensures states[n].retired <= states[n + 1].retired && Survives(states[n], states[n + 1], states[n].list[i])
  {
    RunInv(cl, maxClients, states, steps, n);
    hide Inv, Enabled, Next, Makes, Survives, AcceptedIn;
    var c := StepChanges(cl, states[n], steps[n]);
    ChangeKeeps(states[n], states[n + 1], c, AcceptedIn(cl, states[n], steps[n]), i);
  }

  /** Of a command still on the list, the answer is at most begun: nothing sent, a pending response only, or a
      proper beginning of a split success, its bytes counted exactly. */
  lemma NeverEarly(cl: nat, maxClients: nat, states: seq<State>, steps: seq<Step>, n: nat, i: nat)
    requires ValidCl(cl) && Run(cl, maxClients, states, steps) && n < |states| && i < |states[n].list|
    ensures var e := states[n].list[i];
      || e.hist == []
      || (e.state == PendingSent && |e.hist| == 1 && e.hist[0].r.code == 4)
      || (e.state == Done && Splits(cl, e) && e.bytesSent == cl * |e.hist| < e.size)
  {
    RunInv(cl, maxClients, states, steps, n);
    assert Shape(cl, states[n].list[i]);
  }

  // ---------- split responses ----------

  /** The bytes a response part covers, as the AFU reads its 2-bit dp. */
  function Offset(m: Msg): nat { m.r.dp % 4 * 64 }

  /** The parts cover the command's bytes in increasing order without gap or overlap. */
  predicate Tiles(cl: nat, e: Ev) {
    && cl * |e.hist| == e.size
    && forall k :: 0 <= k < |e.hist| ==> Offset(e.hist[k]) == cl * k && DlToSize(e.hist[k].r.dl) == cl
  }

  /** The refusals that leave every dp right: any when parts are 128 bytes; when they are 64, so many before each part
      that they are a multiple of four. */
  predicate DpKept(cl: nat, e: Ev) {
    cl == 64 && Splits(cl, e) ==> forall k :: 0 <= k < |e.skips| ==> e.skips[k] % 4 == 0
  }

  lemma CompleteTiles(cl: nat, e: Ev)
    requires ValidCl(cl) && Complete(cl, e) && Splits(cl, e)
    ensures Tiles(cl, e) <==> DpKept(cl, e)
    ensures e.refused == 0 ==> DpKept(cl, e)
  {
    hide AnswersWithData, TlxEvent.RespSlice;
    assert e.size in {128, 256};
    if cl == 64 {
      assert |e.hist| <= 4;
      forall k | 0 <= k < |e.hist| ensures Offset(e.hist[k]) == cl * k <==> e.skips[k] % 4 == 0 {
        assert e.hist[k] == PartOf(cl, e, k, e.skips[k]);
        PartOffset(k, e.skips[k]);
      }
    } else {
      assert |e.hist| <= 2;
      forall k | 0 <= k < |e.hist| ensures Offset(e.hist[k]) == cl * k {
        assert e.hist[k] == PartOf(cl, e, k, e.skips[k]);
      }
    }
  }

  lemma PartOffset(k: nat, skip: nat)
    requires k < 4
    ensures (k + skip) % 256 % 4 * 64 == 64 * k <==> skip % 4 == 0
  {
  }

  /** In every run a split answer that has been finished tiles its command exactly when the refusals kept every dp;
      when HOST_CL_SIZE is 128 all of them do. */
  lemma SplitTiles(cl: nat, maxClients: nat, states: seq<State>, steps: seq<Step>, n: nat, i: nat)
    requires ValidCl(cl) && Run(cl, maxClients, states, steps) && n < |states| && i < |states[n].retired|
    requires Splits(cl, states[n].retired[i])
    ensures var e := states[n].retired[i];
      && (Tiles(cl, e) <==> DpKept(cl, e))
      && (cl == 128 || e.refused == 0 ==> DpKept(cl, e))
  {
    RunInv(cl, maxClients, states, steps, n);
    CompleteTiles(cl, states[n].retired[i]);
  }

  /** The concatenated payloads of a sequence of messages. */
  function Payloads(hist: seq<Msg>): seq<Byte> {
    if hist == [] then []
    else Payloads(hist[..|hist| - 1]) + (if hist[|hist| - 1].data.Some? then hist[|hist| - 1].data.value else [])
  }

  /** In every run, when the refusals kept every dp of a split read, the payloads of its parts are the data read, first
      byte to last. */
  lemma SplitReadData(cl: nat, maxClients: nat, states: seq<State>, steps: seq<Step>, n: nat, i: nat)
    requires ValidCl(cl) && Run(cl, maxClients, states, steps) && n < |states| && i < |states[n].retired|
    requires var e := states[n].retired[i]; Splits(cl, e) && AnswersWithData(e) && DpKept(cl, e)
    ensures var e := states[n].retired[i]; e.size <= |e.data| && Payloads(e.hist) == e.data[..e.size]
  {
    RunInv(cl, maxClients, states, steps, n);
    CompleteTiles(cl, states[n].retired[i]);
    CompletePayloads(cl, states[n].retired[i]);
  }

  lemma CompletePayloads(cl: nat, e: Ev)
    requires ValidCl(cl) && Complete(cl, e) && Splits(cl, e) && AnswersWithData(e) && Tiles(cl, e)
    ensures e.size <= |e.data| && Payloads(e.hist) == e.data[..e.size]
  {
    PayloadsPrefix(cl, e, |e.hist|);
    assert e.hist[..|e.hist|] == e.hist;
  }

  lemma PayloadAt(cl: nat, e: Ev, k: nat)
    requires cl in {64, 128} && Splits(cl, e) && |e.data| == 256 && Parts(cl, e) && AnswersWithData(e) && Tiles(cl, e)
    requires k < |e.hist| && e.size <= 256
    ensures cl * (k + 1) == cl * k + cl <= 256 && e.hist[k].data == Some(e.data[cl * k..cl * (k + 1)])
  {
  }

  lemma {:induction false} PayloadsPrefix(cl: nat, e: Ev, n: nat)
    requires cl in {64, 128} && Splits(cl, e) && |e.data| == 256 && Parts(cl, e) && AnswersWithData(e) && Tiles(cl, e)
    requires n <= |e.hist| && e.size <= 256
    ensures cl * n <= 256 && Payloads(e.hist[..n]) == e.data[..cl * n]
  {
    hide Splits, Parts, AnswersWithData, Tiles;
    if n > 0 {
      PayloadsPrefix(cl, e, n - 1);
      PayloadAt(cl, e, n - 1);
      assert e.hist[..n][..n - 1] == e.hist[..n - 1];
      assert e.data[..cl * (n - 1)] + e.data[cl * (n - 1)..cl * n] == e.data[..cl * n];
    }
  }

  /** A full read answered in one message carries all of its data. */
  lemma WholeReadData(cl: nat, e: Ev)
    requires ValidCl(cl) && Shape(cl, e) && e.state == Done && e.typ == CmdRead && IsRead(e.command) && !Splits(cl, e)
    ensures PayloadInBuffer(e) && MsgOf(e).data == Some(e.data[..e.size])
  {
  }

  /** What an application returns for a read is stored where the address says; for a full read that is the start
      of the buffer, so the data answered is the data returned. */
  lemma ReadStored(cl: nat, e: Ev, bytes: seq<Byte>)
    requires ValidCl(cl) && Shape(cl, e) && e.typ == CmdRead && e.state == Request && |bytes| == e.size
    ensures CanStore(e, bytes)
    ensures var n := MemReturn(e, bytes);
      && n.state == Done && n.data[e.addr % 64..e.addr % 64 + e.size] == bytes
      && (IsRead(e.command) ==> n.data[..e.size] == bytes)
  {
    ReturnShape(cl, e, bytes);
    if IsRead(e.command) {
      LineAligned(e.addr, e.size);
    }
  }

  /** In every run, a full read that has been answered, in one message or in parts whose dp was kept, sent exactly the
      bytes its application returned; a partial read sent them at their place in a 64-byte line. */
  lemma ReadReturned(cl: nat, maxClients: nat, states: seq<State>, steps: seq<Step>, n: nat, i: nat)
    requires ValidCl(cl) && Run(cl, maxClients, states, steps) && n < |states| && i < |states[n].retired|
    requires var e := states[n].retired[i]; e.typ == CmdRead && DpKept(cl, e)
    ensures var e := states[n].retired[i];
      && |e.returned| == e.size
      && (IsRead(e.command) ==> Payloads(e.hist) == e.returned)
      && (IsPartialRead(e.command) ==>
            && e.addr % 64 + e.size <= 64 == |Payloads(e.hist)|
            && Payloads(e.hist)[e.addr % 64..e.addr % 64 + e.size] == e.returned)
  {
    RunInv(cl, maxClients, states, steps, n);
    CompleteReturned(cl, states[n].retired[i]);
  }

  lemma OneMessage(cl: nat, e: Ev)
    requires ValidCl(cl) && Complete(cl, e) && e.typ == CmdRead && !Splits(cl, e)
    ensures Payloads(e.hist) == e.data[..if e.size <= 64 then 64 else e.size]
  {
    var m := MsgOf(e);
    assert e.hist[..0] == [] && m.data.Some?;
    assert Payloads(e.hist) == Payloads(e.hist[..0]) + m.data.value;
  }

  /** What a read that has left the list is known to be. */
  lemma ReadFields(cl: nat, e: Ev)
    requires ValidCl(cl) && Complete(cl, e) && e.typ == CmdRead
    ensures |e.data| == 256 && |e.returned| == e.size && e.addr % 64 + e.size <= 256
    ensures e.data[e.addr % 64..e.addr % 64 + e.size] == e.returned
    ensures IsRead(e.command) ==> e.size in {64, 128, 256} && e.addr % e.size == 0 && AnswersWithData(e)
    ensures IsPartialRead(e.command) ==> e.size in {1, 2, 4, 8, 16, 32} && e.addr % e.size == 0 && !Splits(cl, e)
  {
  }

  lemma CompleteReturned(cl: nat, e: Ev)
    requires ValidCl(cl) && Complete(cl, e) && e.typ == CmdRead && DpKept(cl, e)
    ensures |e.returned| == e.size
    ensures IsRead(e.command) ==> Payloads(e.hist) == e.returned
    ensures IsPartialRead(e.command) ==>
      && e.addr % 64 + e.size <= 64 == |Payloads(e.hist)|
      && Payloads(e.hist)[e.addr % 64..e.addr % 64 + e.size] == e.returned
  {
    ReadFields(cl, e);
    hide Complete, Splits, Tiles, DpKept, Payloads, AnswersWithData;
    if IsRead(e.command) {
      LineAligned(e.addr, e.size);
      assert e.data[..e.size] == e.returned;
      if Splits(cl, e) {
        CompleteTiles(cl, e);
        CompletePayloads(cl, e);
      } else {
        OneMessage(cl, e);
      }
    } else if IsPartialRead(e.command) {
      PartialInLine(e.addr, e.size);
      OneMessage(cl, e);
      PartOfLine(e.data, e.addr % 64, e.size);
    }
  }

  lemma PartOfLine(data: seq<Byte>, at: nat, size: nat)
    requires at + size <= 64 <= |data|
    ensures data[..64][at..at + size] == data[at..at + size]
  {
  }

  /** With 64-byte parts, one refused continuation makes a 128-byte read skip its second half: its dp says 2. */
  lemma RefusalSkipsPart(e: Ev)
    requires Shape(64, e) && e.typ == CmdRead && IsRead(e.command) && e.size == 128 && e.state == Done && e.hist == []
    ensures CanSend(64, e)
    ensures var first := Answer(64, e, true).e;
      && CanSend(64, first) && CanSend(64, Answer(64, first, false).e)
      && var last := Answer(64, Answer(64, first, false).e, true);
      last.Leaves? && |last.e.hist| == 2 && last.e.hist[1].r.dp == 2 && !Tiles(64, last.e)
  {
  }
}
