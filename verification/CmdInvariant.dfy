/** What every handler of the command engine keeps: the life of one command, one host access per client,
    one write being assembled. */
module CmdInvariant {
  import opened Common
  import opened TlxPacket
  import TlxEvent
  import opened CmdEngine

  // ---------- one command ----------

  predicate SizeFor(e: Ev, full: bool, partial: bool) {
    ((full && e.size in {64, 128, 256}) || (partial && e.size in {1, 2, 4, 8, 16, 32})) && e.addr % e.size == 0
  }

  /** Opcode, type and size go together. */
  predicate Sized(e: Ev) {
    match e.typ
    case CmdRead => SizeFor(e, IsRead(e.command), IsPartialRead(e.command))
    case CmdWrite => SizeFor(e, IsWrite(e.command), IsPartialWrite(e.command))
    case CmdWrBe => IsWriteBe(e.command) && e.size == 64
    case CmdAmoRd => IsAmoRd(e.command) && e.size in if e.state == Done then {2, 3} else {4, 8}
    case CmdAmoRw => IsAmoRw(e.command) && e.size in if e.state == Done then {2, 3} else {4, 8}
    case CmdAmoWr => IsAmoW(e.command) && e.size in {4, 8}
    case CmdInterrupt =>
      (e.command == 0x58 && e.size == 0) || (e.command == 0x5a && e.size in {1, 2, 4, 8, 16, 32, 65535})
    case CmdWake => e.command == 0x5c && e.size == 0
    case CmdTouch => IsTouch(e.command)
    case CmdFailed => true
  }

  /** Nothing has been sent for the command yet. */
  predicate Unanswered(e: Ev) {
    && e.hist == [] && e.skips == [] && e.refused == 0 && e.bytesSent == 0
    && WholeFields(e)
  }

  /** The length and place of an answer that is sent whole. */
  predicate WholeFields(e: Ev) {
    e.respDp == 0 && (e.typ != CmdFailed ==> e.respDl == if e.size <= 64 then 1 else SizeToDl(e.size))
  }

  /** The dp of part k after `skip` refused continuations. */
  function DpOf(cl: nat, k: nat, skip: nat): nat {
    if k == 0 then 0 else if cl == 128 then 2 else k + skip
  }

  /** Part k of a split response, as sent. */
  function PartOf(cl: nat, e: Ev, k: nat, skip: nat): Msg
    requires Splits(cl, e) && cl in {64, 128} && |e.data| == 256
  {
    var r := HostResp(e.respOpcode, e.afutag, 0, 0, SizeToDl(cl), DpOf(cl, k, skip) % 256);
    Msg(r, if AnswersWithData(e) then Some(TlxEvent.RespSlice(r, e.data)) else None)
  }

  /** Every part sent so far. */
  predicate Parts(cl: nat, e: Ev)
    requires Splits(cl, e) && ValidCl(cl) && |e.data| == 256
  {
    && cl in {64, 128} && |e.skips| == |e.hist|
    && (forall k :: 0 <= k < |e.hist| ==> e.hist[k] == PartOf(cl, e, k, e.skips[k]) && e.skips[k] <= e.refused)
    && (forall j, k :: 0 <= j < k < |e.hist| ==> e.skips[j] <= e.skips[k])
    && (|e.hist| > 0 ==> e.skips[0] == 0)
    && (|e.hist| == 0 ==> e.refused == 0)
  }

  /** A split answer in progress: bytesSent is what was acknowledged, and respDp is where the last attempt left it. */
  predicate Splitting(cl: nat, e: Ev)
    requires Splits(cl, e) && ValidCl(cl) && |e.data| == 256
  {
    && Parts(cl, e)
    && e.bytesSent == cl * |e.hist| < e.size
    && (e.hist == [] ==> e.respDp == 0)
    && (cl == 64 && e.hist != [] ==> e.respDp == |e.hist| - 1 + e.refused)
  }

  predicate Assembled(e: Ev) {
    && e.size <= |e.data| && 64 <= |e.data|
    && if e.size > 64 then 64 * |e.beats| == e.size && e.data[..e.size] == Flatten(e.beats)
       else |e.beats| == 1 && e.data[..64] == e.beats[0]
  }

  /** dpartial is a proper multiple of 64 and counts exactly the beats in the buffer, in order. */
  predicate Gathering(e: Ev) {
    && 64 <= e.dpartial < e.size <= |e.data| && 64 * |e.beats| == e.dpartial
    && e.data[..e.dpartial] == Flatten(e.beats)
  }

  /** The data gathered for a command that brings data. */
  predicate DataGathered(e: Ev) {
    match e.typ
    case CmdWrite =>
      && (e.state == Idle ==> e.beats == [])
      && (e.state == Buffer ==> Gathering(e))
      && (e.state in {Received, DmaResp, Done} ==> Assembled(e))
    case CmdWrBe => e.state in {Received, Done} ==> Assembled(e)
    case CmdAmoWr => e.state in {Received, Done} ==> Assembled(e) && Blank(e)
    case CmdAmoRw => e.state == Received ==> Assembled(e) && Blank(e)
    case CmdInterrupt => |e.beats| <= 1 && Blank(e)
    case _ => true
  }

  /** The buffer holds the first beat, if one came, and is otherwise as it was cleared. */
  predicate Blank(e: Ev) {
    && |e.data| == 256 && e.data[64..] == Zeros(192)
    && e.data[..64] == if e.beats == [] then Zeros(64) else e.beats[0]
  }

  predicate IsPendingResponse(e: Ev, m: Msg) {
    m.r.opcode == e.respOpcode && m.r.afutag == e.afutag && m.r.code == 4 && m.data == None
  }

  /** A read or an AMO that has its data holds what the application returned, where its address says. */
  predicate Stored(e: Ev) {
    e.state == Done && e.typ in {CmdRead, CmdAmoRd, CmdAmoRw} ==>
      && (if e.typ == CmdRead then |e.returned| == e.size
          else |e.returned| in {4, 8} && e.size == if |e.returned| == 4 then 2 else 3)
      && e.addr % 64 + |e.returned| <= |e.data|
      && e.data[e.addr % 64..e.addr % 64 + |e.returned|] == e.returned
  }

  /** The states a command of each type can be in, and what has been sent in each. */
  predicate Shape(cl: nat, e: Ev)
    requires ValidCl(cl)
  {
    && Sized(e) && |e.data| == 256 && DataGathered(e) && Stored(e) && (e.typ != CmdFailed ==> e.resp == 0)
    && match e.state
       case Idle => e.typ !in {CmdFailed, CmdTouch} && Unanswered(e)
       case Buffer => e.typ == CmdWrite && Unanswered(e)
       case Request => e.typ == CmdRead && Unanswered(e)
       case Received => e.typ !in {CmdFailed, CmdTouch, CmdRead, CmdInterrupt} && Unanswered(e)
       case DmaResp => e.typ == CmdWrite && Unanswered(e)
       case XlatePending => e.typ == CmdFailed && e.resp == 4 && Unanswered(e)
       case IntPending => e.typ == CmdFailed && e.resp == 4 && Unanswered(e)
       case PendingSent => e.typ == CmdFailed && e.bytesSent == 0 && |e.hist| == 1 && IsPendingResponse(e, e.hist[0])
       case Done => e.resp != 4 && if Splits(cl, e) then Splitting(cl, e) else Unanswered(e)
  }

  /** A command that has left the list: one final answer, all parts of one, or one pending answer and the
      command that completes it. */
  predicate Complete(cl: nat, e: Ev)
    requires ValidCl(cl)
  {
    && |e.data| == 256 && Sized(e) && Stored(e)
    && match e.state
       case Done =>
         if Splits(cl, e) then Parts(cl, e) && cl * |e.hist| == e.size
         else (AnswersWithData(e) ==> PayloadInBuffer(e)) && e.hist == [MsgOf(e)] && e.resp != 4 && WholeFields(e)
       case PendingSent => e.typ == CmdFailed && |e.hist| == 2 && IsPendingResponse(e, e.hist[0])
           && e.hist[1] == PostedFor(e)
       case _ => false
  }

  // ---------- one command through each handler ----------

  lemma PayloadFits(cl: nat, e: Ev)
    requires ValidCl(cl) && Shape(cl, e) && e.state == Done && AnswersWithData(e)
    ensures PayloadInBuffer(NextPart(cl, e))
  {
  }

  lemma NextPartIs(cl: nat, e: Ev)
    requires ValidCl(cl) && Shape(cl, e) && e.state == Done && Splits(cl, e)
    ensures cl in {64, 128} && (AnswersWithData(e) ==> PayloadInBuffer(NextPart(cl, e)))
    ensures MsgOf(NextPart(cl, e)) == PartOf(cl, e, |e.hist|, e.refused)
  {
  }

  /** The answer so far depends on these fields only. */
  lemma PartsKept(cl: nat, e: Ev, n: Ev)
    requires Splits(cl, e) && |e.data| == 256 && cl in {64, 128} && Parts(cl, e) && e.hist <= n.hist
      && e.skips <= n.skips
    requires n == e.(respDp := n.respDp, respDl := n.respDl, bytesSent := n.bytesSent, hist := n.hist,
      skips := n.skips, refused := n.refused)
    requires e.refused <= n.refused
    ensures Splits(cl, n)
    ensures forall k :: 0 <= k < |e.hist| ==> n.hist[k] == PartOf(cl, n, k, n.skips[k]) && n.skips[k] <= n.refused
  {
  }

  /** A part accepted: the history grows by it, and the command is finished exactly when every byte is acknowledged. */
  lemma PartAccepted(cl: nat, e: Ev)
    requires ValidCl(cl) && Shape(cl, e) && e.state == Done && Splits(cl, e)
    requires AnswersWithData(e) ==> PayloadInBuffer(NextPart(cl, e))
    ensures var n := Sent(NextPart(cl, e), MsgOf(NextPart(cl, e)));
      && n.hist == e.hist + [PartOf(cl, e, |e.hist|, e.refused)]
      && (if MoreParts(n) then Shape(cl, n) else Complete(cl, n))
  {
    NextPartIs(cl, e);
    var n := Sent(NextPart(cl, e), MsgOf(NextPart(cl, e)));
    PartsGrow(cl, e, n);
    hide TlxEvent.RespSlice, DlToSize, SizeToDl, Parts, MsgOf, PartOf;
  }

  lemma PartsGrow(cl: nat, e: Ev, n: Ev)
    requires Splits(cl, e) && |e.data| == 256 && cl in {64, 128} && Parts(cl, e)
    requires n == e.(respDp := n.respDp, respDl := n.respDl, bytesSent := n.bytesSent,
                     hist := e.hist + [PartOf(cl, e, |e.hist|, e.refused)], skips := e.skips + [e.refused])
    ensures Splits(cl, n) && Parts(cl, n)
  {
    PartsKept(cl, e, n);
    hide TlxEvent.RespSlice, DlToSize, SizeToDl;
    assert n.hist[|e.hist|] == PartOf(cl, n, |e.hist|, e.refused);
  }

  lemma PartRefused(cl: nat, e: Ev)
    requires ValidCl(cl) && Shape(cl, e) && e.state == Done && Splits(cl, e)
    ensures var p := NextPart(cl, e);
      && p.bytesSent >= cl
      && Shape(cl, p.(bytesSent := p.bytesSent - cl, refused := if e.bytesSent != 0 then p.refused + 1 else p.refused))
  {
    var p := NextPart(cl, e);
    var n := p.(bytesSent := p.bytesSent - cl, refused := if e.bytesSent != 0 then p.refused + 1 else p.refused);
    PartsKept(cl, e, n);
    hide TlxEvent.RespSlice, DlToSize, SizeToDl;
    assert Parts(cl, n);
  }

  /** Any other answer is one message, sent whole; a refused one changes nothing. */
  lemma WholeAccepted(cl: nat, e: Ev)
    requires ValidCl(cl) && Shape(cl, e) && e.state == Done && !Splits(cl, e)
    requires AnswersWithData(e) ==> PayloadInBuffer(e)
    ensures NextPart(cl, e) == e && e.bytesSent == 0 && Complete(cl, Sent(e, MsgOf(e)))
  {
  }

  /** A pending answer: the command waits for handle_xlate_intrp_pending_sent. */
  lemma PendingAccepted(cl: nat, e: Ev)
    requires ValidCl(cl) && Shape(cl, e) && e.state in {XlatePending, IntPending}
    ensures NextPart(cl, e) == e && e.bytesSent == 0 && !AnswersWithData(e)
    ensures Shape(cl, Sent(e, MsgOf(e)).(state := PendingSent))
  {
  }

  lemma FailShape(cl: nat, e: Ev, opcode: Byte, code: Byte)
    requires ValidCl(cl) && Shape(cl, e) && Unanswered(e) && e.state in {Idle, Received} && code in {2, 4, 8, 0x0e}
    ensures Shape(cl, Fail(e, opcode, code)) && !Accessed(Fail(e, opcode, code))
  {
  }

  lemma InterruptShape(cl: nat, e: Ev, a: Allow)
    requires ValidCl(cl) && Shape(cl, e) && Picks(ToInterrupt, e)
    ensures Shape(cl, AfterInterrupt(e, a)) && !Picks(ToFill, AfterInterrupt(e, a))
  {
  }

  lemma {:induction false} FlattenSize(s: seq<Line>)
    ensures |Flatten(s)| == 64 * |s|
  {
    if s != [] {
      FlattenSize(s[1..]);
    }
  }

  lemma FlattenOneMore(s: seq<Line>, b: Line)
    ensures Flatten(s + [b]) == Flatten(s) + b
  {
    FlattenAppend(s, [b]);
    FlattenSingle(b);
  }

  /** A beat extends the assembled data by exactly its 64 bytes; the write is received when the size is reached. */
  lemma GatherShape(cl: nat, e: Ev, b: LineBeat)
    requires ValidCl(cl) && Shape(cl, e) && Picks(ToFill, e)
    ensures CanFill(e) && Shape(cl, Gather(e, b))
    ensures Gather(e, b).beats == e.beats + [b.bytes]
  {
    var g := Gather(e, b);
    FlattenOneMore(e.beats, b.bytes);
    assert e.size in {128, 256};
    var left := e.size - e.dpartial;
    if left > 64 {
      assert g.data[..g.dpartial] == e.data[..e.dpartial] + b.bytes;
    } else {
      assert left == 64;
      assert b.bytes[..left] == b.bytes;
      assert g.data[..e.size] == e.data[..e.dpartial] + b.bytes;
    }
  }

  /** A new command, without data or with its first beat. */
  lemma NewShape(cl: nat, e: Ev, beat: Option<LineBeat>)
    requires ValidCl(cl) && Sized(e) && Blank(e) && Unanswered(e) && e.beats == []
    requires e.typ != CmdFailed ==> e.resp == 0
    requires e.typ in {CmdFailed, CmdTouch} ==> e.state == Done && e.resp != 4 && beat.None?
    requires e.typ !in {CmdFailed, CmdTouch} ==> e.state == Idle
    requires beat.Some? ==> e.typ != CmdRead
    ensures Shape(cl, if beat.Some? then Fill(e, beat.value) else e)
    ensures !Accessed(e)
  {
    if beat.Some? {
      var f := Fill(e, beat.value);
      assert f.data[..64] == beat.value.bytes;
      FlattenSingle(beat.value.bytes);
    }
  }

  // ---------- host accesses ----------

  /** The commands that can be waiting for their client. */
  predicate Accessed(e: Ev) {
    || (e.typ == CmdRead && e.state == Request)
    || (e.typ == CmdWrite && e.state == DmaResp)
    || (e.typ in {CmdWrBe, CmdAmoRd, CmdAmoRw, CmdAmoWr} && e.state == Received)
  }

  lemma PutIs(e: Ev, bytes: seq<Byte>)
    requires CanStore(e, bytes)
    ensures var at := e.addr % 64; var d := Put(e, bytes); |d| == |e.data| && d[at..at + e.size] == bytes
  {
  }

  /** What a read or an AMO asks for lies inside the buffer. */
  lemma FitsBuffer(cl: nat, e: Ev)
    requires ValidCl(cl) && Shape(cl, e) && Accessed(e)
    ensures e.typ in {CmdRead, CmdAmoRd, CmdAmoRw} ==> e.addr % 64 + e.size <= 256
  {
    if e.typ == CmdRead && e.size >= 64 {
      LineAligned(e.addr, e.size);
    }
  }

  /** An access can always be stored, and afterwards the command is ready to be answered. */
  lemma ReturnShape(cl: nat, e: Ev, bytes: seq<Byte>)
    requires ValidCl(cl) && Shape(cl, e) && Accessed(e) && |bytes| == e.size
    ensures e.typ in {CmdRead, CmdAmoRd, CmdAmoRw} ==> CanStore(e, bytes)
    ensures Shape(cl, MemReturn(e, bytes)) && MemReturn(e, bytes).state == Done
  {
    FitsBuffer(cl, e);
    if e.typ in {CmdRead, CmdAmoRd, CmdAmoRw} {
      PutIs(e, bytes);
      hide SizeFor, Assembled, Put;
    } else {
      hide SizeFor;
    }
  }

  lemma AerrorShape(cl: nat, e: Ev)
    requires ValidCl(cl) && Shape(cl, e) && Accessed(e)
    ensures Shape(cl, Aerror(e)) && Aerror(e).state == Done
  {
  }

  // ---------- the whole engine ----------

  predicate EventsOk(cl: nat, s: State)
    requires ValidCl(cl)
  {
    forall i :: 0 <= i < |s.list| ==>
      Shape(cl, s.list[i]) && s.list[i].context < |s.clients| && s.clients[s.list[i].context].Some?
  }

  predicate UniqueTags(list: seq<Ev>) {
    forall i, j :: 0 <= i < j < |list| ==> list[i].afutag != list[j].afutag
  }

  predicate OneBuffer(list: seq<Ev>) {
    forall i, j :: 0 <= i < j < |list| ==> !Picks(ToFill, list[i]) || !Picks(ToFill, list[j])
  }

  predicate PointsTo(list: seq<Ev>, i: int, tag: U16, context: nat) {
    0 <= i < |list| && list[i].afutag == tag && list[i].context == context && Accessed(list[i])
  }

  /** At most one unanswered request, and the access it belongs to is a command still on the list and in no
      state that handle_response frees. */
  ghost predicate ClientOk(list: seq<Ev>, c: Client, context: nat) {
    && c.unanswered == (if c.access.Some? then 1 else 0)
    && (c.access.Some? ==> exists i :: PointsTo(list, i, c.access.value, context))
  }

  ghost predicate AccessesOk(s: State) {
    forall c :: 0 <= c < |s.clients| && s.clients[c].Some? ==> ClientOk(s.list, s.clients[c].value, c)
  }

  predicate HasAccess(clients: seq<Option<Client>>, e: Ev) {
    e.context < |clients| && clients[e.context].Some? && clients[e.context].value.access == Some(e.afutag)
  }

  /** A command waiting for data or an acknowledgement is its client's access. */
  predicate WaitersOk(s: State) {
    forall i :: 0 <= i < |s.list| && s.list[i].state in {Request, DmaResp} ==> HasAccess(s.clients, s.list[i])
  }

  predicate RetiredOk(cl: nat, s: State)
    requires ValidCl(cl)
  {
    forall i :: 0 <= i < |s.retired| ==> Complete(cl, s.retired[i])
  }

  ghost predicate Inv(cl: nat, s: State)
    requires ValidCl(cl)
  {
    EventsOk(cl, s) && UniqueTags(s.list) && OneBuffer(s.list) && AccessesOk(s) && WaitersOk(s) && RetiredOk(cl, s)
  }

  /** One command changed in place. */
  lemma ReplaceInv(cl: nat, s: State, i: nat, e: Ev)
    requires ValidCl(cl) && Inv(cl, s) && i < |s.list|
    requires e.afutag == s.list[i].afutag && e.context == s.list[i].context && Shape(cl, e)
    requires Picks(ToFill, e) ==> Picks(ToFill, s.list[i])
    requires HasAccess(s.clients, s.list[i]) ==> Accessed(e)
    requires e.state in {Request, DmaResp} ==> HasAccess(s.clients, s.list[i])
    ensures Inv(cl, s.(list := s.list[i := e]))
  {
    hide Shape, Complete, Accessed;
    var t := s.(list := s.list[i := e]);
    forall c | 0 <= c < |t.clients| && t.clients[c].Some? ensures ClientOk(t.list, t.clients[c].value, c) {
      var k := t.clients[c].value;
      assert ClientOk(s.list, k, c);
      if k.access.Some? {
        var j :| PointsTo(s.list, j, k.access.value, c);
        assert PointsTo(t.list, j, k.access.value, c);
      }
    }
  }

  /** A command leaves the list with its answer complete. */
  lemma RemoveInv(cl: nat, s: State, i: nat, e: Ev)
    requires ValidCl(cl) && Inv(cl, s) && i < |s.list| && !Accessed(s.list[i]) && Complete(cl, e)
    ensures Inv(cl, s.(list := Remove(s.list, i), retired := s.retired + [e]))
  {
    hide Shape, Complete, Accessed;
    var t := s.(list := Remove(s.list, i), retired := s.retired + [e]);
    forall c | 0 <= c < |t.clients| && t.clients[c].Some? ensures ClientOk(t.list, t.clients[c].value, c) {
      var k := t.clients[c].value;
      assert ClientOk(s.list, k, c);
      if k.access.Some? {
        var j :| PointsTo(s.list, j, k.access.value, c);
        assert PointsTo(t.list, if j < i then j else j - 1, k.access.value, c);
      }
    }
  }

  /** A new command enters the list. */
  lemma InsertInv(cl: nat, s: State, pos: nat, e: Ev)
    requires ValidCl(cl) && Inv(cl, s) && pos <= |s.list| && Shape(cl, e) && e.state !in {Request, DmaResp}
    requires e.context < |s.clients| && s.clients[e.context].Some? && !HasTag(s.list, e.afutag)
    requires Picks(ToFill, e) ==> !DataExpected(s.list)
    ensures Inv(cl, s.(list := Insert(s.list, pos, e)))
  {
    InsertOneBuffer(s.list, pos, e);
    InsertAccesses(s, pos, e);
    InsertTags(s.list, pos, e);
    hide Shape, Complete, Accessed, Picks, DataExpected, OneBuffer, AccessesOk, UniqueTags, HasTag;
  }

  lemma InsertTags(list: seq<Ev>, pos: nat, e: Ev)
    requires UniqueTags(list) && !HasTag(list, e.afutag) && pos <= |list|
    ensures UniqueTags(Insert(list, pos, e))
  {
  }

  lemma InsertAccesses(s: State, pos: nat, e: Ev)
    requires AccessesOk(s) && pos <= |s.list|
    ensures AccessesOk(s.(list := Insert(s.list, pos, e)))
  {
    hide Accessed;
    var t := s.(list := Insert(s.list, pos, e));
    forall c | 0 <= c < |t.clients| && t.clients[c].Some? ensures ClientOk(t.list, t.clients[c].value, c) {
      var k := t.clients[c].value;
      assert ClientOk(s.list, k, c);
      if k.access.Some? {
        var j :| PointsTo(s.list, j, k.access.value, c);
        assert PointsTo(t.list, if j < pos then j else j + 1, k.access.value, c);
      }
    }
  }

  lemma InsertOneBuffer(list: seq<Ev>, pos: nat, e: Ev)
    requires OneBuffer(list) && pos <= |list| && (Picks(ToFill, e) ==> !DataExpected(list))
    ensures OneBuffer(Insert(list, pos, e))
  {
  }

  predicate SameAccess(a: Option<Client>, b: Option<Client>) {
    if a.None? then b.None?
    else b.Some? && b.value.access == a.value.access && b.value.unanswered == a.value.unanswered
  }

  /** Only the staged signals, requests made or client tags differ. */
  lemma SameList(cl: nat, s: State, t: State)
    requires ValidCl(cl) && Inv(cl, s) && t.list == s.list && t.retired == s.retired && |t.clients| == |s.clients|
    requires forall c :: 0 <= c < |s.clients| ==> SameAccess(s.clients[c], t.clients[c])
    ensures Inv(cl, t)
  {
  }

  /** A request goes out only to a client without one, and makes its command the client's access. */
  lemma AskInv(cl: nat, s: State, i: nat, state: MemState, req: HostReq)
    requires ValidCl(cl) && Inv(cl, s) && i < |s.list| && Free(s, s.list[i].context)
    requires Shape(cl, s.list[i].(state := state)) && Accessed(s.list[i].(state := state))
    ensures Inv(cl, Ask(s, i, state, req))
  {
    var e := s.list[i].(state := state);
    var t := Ask(s, i, state, req);
    assert !Picks(ToFill, e);
    assert t.list[i] == e && t.clients[e.context].value.access == Some(e.afutag);
    hide Shape, Complete, Accessed, Picks;
    forall c | 0 <= c < |t.clients| && t.clients[c].Some? ensures ClientOk(t.list, t.clients[c].value, c) {
      assert ClientOk(s.list, s.clients[c].value, c);
      var k := t.clients[c].value;
      if c == e.context {
        assert PointsTo(t.list, i, k.access.value, c);
      } else if k.access.Some? {
        var j :| PointsTo(s.list, j, k.access.value, c);
        assert PointsTo(t.list, j, k.access.value, c);
      }
    }
  }

  /** The command a client's access names. */
  lemma AccessedEvent(cl: nat, s: State, context: nat)
    requires ValidCl(cl) && Inv(cl, s) && context < |s.clients| && s.clients[context].Some?
    requires s.clients[context].value.access.Some?
    ensures HasTag(s.list, s.clients[context].value.access.value)
    ensures PointsTo(s.list, TagIndex(s.list, s.clients[context].value.access.value),
      s.clients[context].value.access.value, context)
  {
  }

  /** The access of one client ends and its command is done. */
  function Answered(s: State, context: nat, i: nat, e: Ev): State
    requires context < |s.clients| && s.clients[context].Some? && i < |s.list|
  {
    s.(list := s.list[i := e],
        clients := s.clients[context := Some(s.clients[context].value.(access := None, unanswered := 0))])
  }

  lemma AnswerInv(cl: nat, s: State, context: nat, i: nat, e: Ev)
    requires ValidCl(cl) && Inv(cl, s) && context < |s.clients| && s.clients[context].Some?
    requires s.clients[context].value.access.Some?
      && PointsTo(s.list, i, s.clients[context].value.access.value, context)
    requires e.afutag == s.list[i].afutag && e.context == context && e.state == Done && Shape(cl, e)
    ensures Inv(cl, Answered(s, context, i, e))
  {
    AnswerAccesses(cl, s, context, i, e);
    hide Shape, Complete, Accessed, AccessesOk, ClientOk;
    var t := Answered(s, context, i, e);
    assert EventsOk(cl, t) && OneBuffer(t.list) && UniqueTags(t.list);
  }

  lemma AnswerAccesses(cl: nat, s: State, context: nat, i: nat, e: Ev)
    requires UniqueTags(s.list) && AccessesOk(s) && context < |s.clients| && s.clients[context].Some?
    requires i < |s.list| && s.list[i].context == context
    ensures AccessesOk(Answered(s, context, i, e))
  {
    hide Accessed;
    var t := Answered(s, context, i, e);
    forall c | 0 <= c < |t.clients| && t.clients[c].Some? ensures ClientOk(t.list, t.clients[c].value, c) {
      assert ClientOk(s.list, s.clients[c].value, c);
      var k := t.clients[c].value;
      if k.access.Some? {
        var j :| PointsTo(s.list, j, k.access.value, c);
        assert PointsTo(t.list, j, k.access.value, c);
      }
    }
  }

  // ---------- the handlers ----------

  lemma RespondEnabled(cl: nat, s: State)
    requires ValidCl(cl) && Inv(cl, s)
    ensures CanRespond(cl, s)
  {
    var i := First(s.list, ToRespond);
    if i < |s.list| {
      var e := s.list[i];
      assert Shape(cl, e);
      if e.state == Done && Splits(cl, e) {
        NextPartIs(cl, e);
      } else if e.state == Done && AnswersWithData(e) {
        PayloadFits(cl, e);
      }
    }
  }

  /** What handle_response and handle_xlate_intrp_pending_sent may make of a command. */
  predicate FateOk(cl: nat, e: Ev, f: Fate)
    requires ValidCl(cl)
  {
    match f
    case Stays(n) =>
      Shape(cl, n) && n.afutag == e.afutag && n.context == e.context && n.state !in {Buffer, Request, DmaResp}
    case Leaves(n) => Complete(cl, n) && n.afutag == e.afutag && n.context == e.context
  }

  lemma AnswerOk(cl: nat, e: Ev, accept: bool)
    requires ValidCl(cl) && Shape(cl, e) && Picks(ToRespond, e) && CanSend(cl, e)
    ensures FateOk(cl, e, Answer(cl, e, accept))
  {
    hide Shape, Complete, NextPart, MsgOf, CanSend, PayloadInBuffer, AnswersWithData;
    NextPartKeeps(cl, e);
    CanSendMeans(cl, e);
    if e.state != Done {
      PendingAccepted(cl, e);
      UnsplitRefused(cl, e);
    } else if Splits(cl, e) {
      PartAccepted(cl, e);
      PartRefused(cl, e);
    } else {
      WholeAccepted(cl, e);
      UnsplitRefused(cl, e);
    }
  }

  lemma CanSendMeans(cl: nat, e: Ev)
    requires CanSend(cl, e)
    ensures AnswersWithData(e) ==> PayloadInBuffer(NextPart(cl, e))
    ensures !Splits(cl, e) ==> NextPart(cl, e) == e
  {
  }

  lemma NextPartKeeps(cl: nat, e: Ev)
    ensures NextPart(cl, e) == e.(respDp := NextPart(cl, e).respDp, respDl := NextPart(cl, e).respDl,
      bytesSent := NextPart(cl, e).bytesSent)
  {
  }

  lemma UnsplitRefused(cl: nat, e: Ev)
    requires ValidCl(cl) && Shape(cl, e) && Picks(ToRespond, e) && !Splits(cl, e)
    ensures NextPart(cl, e) == e && e.bytesSent == 0 && e.(bytesSent := 0, refused := e.refused) == e
  {
  }

  lemma FinishOk(cl: nat, e: Ev, a: Allow, accept: bool)
    requires ValidCl(cl) && Shape(cl, e) && e.state == PendingSent
    ensures FateOk(cl, e, Finish(e, a, accept))
  {
  }

  lemma ResolveInv(cl: nat, s: State, i: nat, f: Fate)
    requires ValidCl(cl) && Inv(cl, s) && i < |s.list| && FateOk(cl, s.list[i], f)
      && s.list[i].state !in {Request, DmaResp, Received}
    ensures Inv(cl, Resolve(s, i, f))
  {
    AccessIsWaiting(cl, s, i);
    hide Shape, Complete, Inv;
    match f
    case Stays(e) => ReplaceInv(cl, s, i, e);
    case Leaves(e) => RemoveInv(cl, s, i, e);
  }

  /** Only a command waiting for its client is anyone's access. */
  lemma AccessIsWaiting(cl: nat, s: State, i: nat)
    requires ValidCl(cl) && Inv(cl, s) && i < |s.list|
    ensures HasAccess(s.clients, s.list[i]) ==> Accessed(s.list[i])
  {
  }

  lemma ResponseInv(cl: nat, s: State, accept: bool)
    requires ValidCl(cl) && Inv(cl, s) && CanRespond(cl, s)
    ensures Inv(cl, HandleResponse(cl, s, accept))
  {
    var i := First(s.list, ToRespond);
    if i < |s.list| {
      assert Shape(cl, s.list[i]);
      hide Inv, Answer, Shape, CanSend, FateOk;
      AnswerOk(cl, s.list[i], accept);
      ResolveInv(cl, s, i, Answer(cl, s.list[i], accept));
    }
  }

  lemma PendingSentInv(cl: nat, s: State, pick: Option<nat>, a: Allow, accept: bool)
    requires ValidCl(cl) && Inv(cl, s) && Pickable(s, pick)
    ensures Inv(cl, HandlePendingSent(s, pick, a, accept))
  {
    if pick.Some? {
      var e := s.list[pick.value];
      assert Shape(cl, e);
      hide Inv, Finish, Shape, FateOk;
      FinishOk(cl, e, a, accept);
      ResolveInv(cl, s, pick.value, Finish(e, a, accept));
    }
  }

  lemma FailInv(cl: nat, s: State, i: nat, opcode: Byte, a: Allow)
    requires ValidCl(cl) && Inv(cl, s) && i < |s.list| && Refusal(a).Some? && Free(s, s.list[i].context)
    requires s.list[i].state in {Idle, Received}
    ensures Inv(cl, s.(list := s.list[i := Fail(s.list[i], opcode, Refusal(a).value)]))
  {
    assert Shape(cl, s.list[i]);
    FailShape(cl, s.list[i], opcode, Refusal(a).value);
    var e := Fail(s.list[i], opcode, Refusal(a).value);
    assert !Picks(ToFill, e) && e.state !in {Request, DmaResp} && !HasAccess(s.clients, s.list[i]);
    hide Shape, Inv, Fail;
    ReplaceInv(cl, s, i, e);
  }

  lemma BufferWriteInv(cl: nat, s: State, a: Allow)
    requires ValidCl(cl) && Inv(cl, s)
    ensures Inv(cl, HandleBufferWrite(s, a))
  {
    var i := First(s.list, ToRead);
    if i < |s.list| {
      var e := s.list[i];
      assert Shape(cl, e);
      if e.state == Idle && Free(s, e.context) {
        if Refusal(a).Some? {
          FailInv(cl, s, i, READ_FAILED, a);
        } else {
          assert Shape(cl, e.(state := Request)) && Accessed(e.(state := Request));
          hide Shape, Inv, Accessed, Ask;
          AskInv(cl, s, i, Request, ReadReq(e.context, e.afutag, e.addr, e.size));
        }
      }
    }
  }

  lemma CmdDataInv(cl: nat, s: State)
    requires ValidCl(cl) && Inv(cl, s)
    ensures forall e :: e in s.list && Picks(ToFill, e) ==> CanFill(e)
    ensures Inv(cl, HandleCmdData(s))
  {
    var i := First(s.list, ToFill);
    if i < |s.list| && s.cdata.Some? {
      var e := s.list[i];
      assert Shape(cl, e) && !Accessed(e);
      AccessIsWaiting(cl, s, i);
      GatherShape(cl, e, s.cdata.value);
      var g := Gather(e, s.cdata.value);
      hide Shape, Inv, Gather, Accessed;
      GatherKeeps(e, s.cdata.value);
      var t := s.(list := s.list[i := g]);
      ReplaceInv(cl, s, i, g);
      SameList(cl, t, t.(cdata := None));
    }
  }

  lemma GatherKeeps(e: Ev, b: LineBeat)
    requires CanFill(e) && e.state == Buffer
    ensures var g := Gather(e, b); g.afutag == e.afutag && g.context == e.context && g.state in {Buffer, Received}
  {
  }

  lemma WriteCmdInv(cl: nat, s: State, a: Allow)
    requires ValidCl(cl) && Inv(cl, s)
    ensures forall e :: e in s.list && Picks(ToWrite, e) ==> CanWrite(e)
    ensures Inv(cl, HandleWriteCmd(s, a))
  {
    var i := First(s.list, ToWrite);
    if i < |s.list| && Free(s, s.list[i].context) {
      var e := s.list[i];
      assert Shape(cl, e);
      if Refusal(a).Some? {
        FailInv(cl, s, i, WRITE_FAILED, a);
      } else {
        assert Shape(cl, e.(state := DmaResp)) && Accessed(e.(state := DmaResp));
        assert CanWrite(e);
        hide Shape, Inv, Accessed, Ask, WrittenBytes, CanWrite;
        AskInv(cl, s, i, DmaResp, WriteReq(e.context, e.afutag, e.addr, WrittenBytes(e)));
      }
    }
  }

  lemma InterruptInv(cl: nat, s: State, a: Allow)
    requires ValidCl(cl) && Inv(cl, s) && CanInterrupt(s, a)
    ensures Inv(cl, HandleInterrupt(s, a))
  {
    var i := First(s.list, ToInterrupt);
    if i < |s.list| {
      var e := s.list[i];
      assert Shape(cl, e) && !Accessed(e);
      AccessIsWaiting(cl, s, i);
      InterruptShape(cl, e, a);
      hide Inv, Shape, AfterInterrupt, NoticeBytes, CanNotify, IntrRefused;
      InterruptKeeps(e, a);
      ReplaceInv(cl, s, i, AfterInterrupt(e, a));
      SameList(cl, s.(list := s.list[i := AfterInterrupt(e, a)]), HandleInterrupt(s, a));
    }
  }

  lemma InterruptKeeps(e: Ev, a: Allow)
    ensures var n := AfterInterrupt(e, a);
      n.afutag == e.afutag && n.context == e.context && n.state in {Done, IntPending}
  {
  }

  lemma OperateEnabled(cl: nat, s: State)
    requires ValidCl(cl) && Inv(cl, s)
    ensures forall e :: e in s.list && Picks(ToOperate, e) ==> CanOperate(e)
  {
    forall e | e in s.list && Picks(ToOperate, e) ensures CanOperate(e) {
      assert Shape(cl, e);
    }
  }

  lemma OperateInv(cl: nat, s: State, a: Allow)
    requires ValidCl(cl) && Inv(cl, s)
    ensures forall e :: e in s.list && Picks(ToOperate, e) ==> CanOperate(e)
    ensures Inv(cl, HandleOperate(s, a))
  {
    OperateEnabled(cl, s);
    var i := First(s.list, ToOperate);
    if i < |s.list| && Free(s, s.list[i].context) {
      var e := s.list[i];
      assert Shape(cl, e);
      if Refusal(a).Some? {
        FailInv(cl, s, i, if e.typ in {CmdAmoRd, CmdAmoRw} then READ_FAILED else WRITE_FAILED, a);
      } else {
        assert e.(state := e.state) == e && Accessed(e);
        hide Shape, Inv, Accessed, Ask, OpReqOf, CanOperate;
        AskInv(cl, s, i, e.state, OpReqOf(e));
      }
    }
  }

  /** An application that answers with as many bytes as were asked for can always be served. */
  lemma AnswerEnabled(cl: nat, s: State, context: nat, ok: bool, bytes: seq<Byte>)
    requires ValidCl(cl) && Inv(cl, s) && context < |s.clients| && s.clients[context].Some?
    requires s.clients[context].value.access.Some? && HasTag(s.list, s.clients[context].value.access.value)
      ==> |bytes| == s.list[TagIndex(s.list, s.clients[context].value.access.value)].size
    ensures CanAnswer(s, context, ok, bytes)
  {
  }

  lemma AnswerStepInv(cl: nat, s: State, context: nat, ok: bool, bytes: seq<Byte>)
    requires ValidCl(cl) && Inv(cl, s) && CanAnswer(s, context, ok, bytes)
    ensures Inv(cl, HandleAnswer(s, context, ok, bytes))
  {
    var c := s.clients[context].value;
    if c.access.Some? {
      AccessedEvent(cl, s, context);
      var i := TagIndex(s.list, c.access.value);
      var e := s.list[i];
      assert Shape(cl, e);
      assert ClientOk(s.list, c, context);
      var n := if ok then MemReturn(e, bytes) else Aerror(e);
      MemReturnShape(cl, e, ok, bytes);
      hide Shape, Inv, MemReturn, Aerror, Accessed;
      AnswerInv(cl, s, context, i, n);
    }
  }

  lemma MemReturnShape(cl: nat, e: Ev, ok: bool, bytes: seq<Byte>)
    requires ValidCl(cl) && Shape(cl, e) && Accessed(e)
    requires ok && e.typ in {CmdRead, CmdAmoRd, CmdAmoRw} ==> CanStore(e, bytes)
    ensures var n := if ok then MemReturn(e, bytes) else Aerror(e);
      Shape(cl, n) && n.state == Done && n.afutag == e.afutag && n.context == e.context
  {
    if !ok {
      AerrorShape(cl, e);
    } else if e.typ in {CmdRead, CmdAmoRd, CmdAmoRw} {
      ReturnShape(cl, e, bytes);
    } else {
      assert MemReturn(e, bytes) == e.(state := Done);
    }
  }

  // ---------- commands arriving ----------

  lemma AddInv(cl: nat, s: State, e: Ev, beat: Option<LineBeat>, pos: nat)
    requires ValidCl(cl) && Inv(cl, s) && pos <= |s.list| && Sized(e) && Blank(e) && Unanswered(e)
      && e.beats == []
    requires e.typ != CmdFailed ==> e.resp == 0
    requires e.typ in {CmdFailed, CmdTouch} ==> e.state == Done && e.resp != 4 && beat.None?
    requires e.typ !in {CmdFailed, CmdTouch} ==> e.state == Idle
    requires beat.Some? ==> e.typ != CmdRead
    requires e.context < |s.clients| && s.clients[e.context].Some? && !HasTag(s.list, e.afutag)
    ensures Inv(cl, AddCmd(s, e, beat, pos))
  {
    NewShape(cl, e, beat);
    NewShape(cl, e, None);
    FillKeeps(e, beat);
    hide Shape, Inv, Fill, Sized;
    if beat.None? {
      InsertInv(cl, s, pos, e);
    } else if DataExpected(s.list) {
      InsertInv(cl, s, pos, e);
      var t := s.(list := Insert(s.list, pos, e));
      SameList(cl, t, t.(cdata := beat));
    } else {
      InsertInv(cl, s, pos, Fill(e, beat.value));
    }
  }

  lemma FillKeeps(e: Ev, beat: Option<LineBeat>)
    ensures beat.Some? ==> var f := Fill(e, beat.value);
      f.afutag == e.afutag && f.context == e.context && f.typ == e.typ && f.state in {e.state, Buffer, Received}
    ensures e.state != Buffer ==> !Picks(ToFill, e)
  {
  }

  lemma AddFailInv(cl: nat, s: State, c: AfuCmd, resp: Byte, respOpcode: Byte, pos: nat)
    requires ValidCl(cl) && Inv(cl, s) && pos <= |s.list| && resp != 4 && !HasTag(s.list, c.afutag)
    ensures Inv(cl, AddFail(s, c, resp, respOpcode, pos))
  {
    var context := FindByActag(s.clients, c.actag);
    if context.Some? {
      hide Inv, AddCmd, HasTag;
      AddInv(cl, s, NewEvent(context.value, c, CmdFailed, 0, 0, Done, resp, respOpcode), None, pos);
    }
  }

  lemma AddCheckedInv(cl: nat, s: State, c: AfuCmd, typ: CmdType, size: int, eventSize: int, state: MemState,
      failed: Byte, ok: Byte,
                      beat: Option<LineBeat>, pos: nat)
    requires ValidCl(cl) && Inv(cl, s) && pos <= |s.list| && !HasTag(s.list, c.afutag)
    requires (size == -1 || size > 0) && (size > 0 ==> eventSize >= 0)
    requires size > 0 && AddrOf(c) % size == 0 ==> Sized(NewEvent(0, c, typ, AddrOf(c), eventSize, state, 0, ok))
    requires typ != CmdFailed && (if typ == CmdTouch then state == Done && beat.None? else state == Idle)
    requires beat.Some? ==> typ != CmdRead
    ensures Inv(cl, AddChecked(s, c, typ, size, eventSize, state, failed, ok, beat, pos))
  {
    AddFailInv(cl, s, c, 0x09, failed, pos);
    AddFailInv(cl, s, c, 0x0b, failed, pos);
    var context := FindByActag(s.clients, c.actag);
    hide Inv, AddCmd, HasTag, AddFail, FindByActag;
    if AlignmentOf(AddrOf(c), size) == Aligned && context.Some? {
      AddInv(cl, s, NewEvent(context.value, c, typ, AddrOf(c), eventSize, state, 0, ok), beat, pos);
    }
  }

  lemma AddAmoInv(cl: nat, s: State, c: AfuCmd, beat: Option<LineBeat>, pos: nat)
    requires ValidCl(cl) && Inv(cl, s) && pos <= |s.list| && !HasTag(s.list, c.afutag)
    requires IsAmoRd(c.opcode) || IsAmoRw(c.opcode) || IsAmoW(c.opcode)
    ensures Inv(cl, AddAmo(s, c, beat, pos))
  {
    forall code: Byte, opcode: Byte | code != 4 ensures Inv(cl, AddFail(s, c, code, opcode, pos)) {
      AddFailInv(cl, s, c, code, opcode, pos);
    }
    var context := FindByActag(s.clients, c.actag);
    hide Inv, AddCmd, HasTag, AddFail, FindByActag;
    var asRead := IsAmoRw(c.opcode) || c.opcode == 0x38;
    if context.Some? {
      AddInv(cl, s, NewEvent(context.value, c, AmoType(c.opcode), AddrOf(c), if c.pl in {2, 6} then 4 else 8, Idle, 0,
                             if asRead then READ_RESP else WRITE_RESP), beat, pos);
    }
  }

  lemma AddInterruptInv(cl: nat, s: State, c: AfuCmd, size: int, beat: Option<LineBeat>, pos: nat)
    requires ValidCl(cl) && Inv(cl, s) && pos <= |s.list| && !HasTag(s.list, c.afutag)
    requires IsInterrupt(c.opcode) && (if c.opcode == 0x5a then size == PlToSize(c.pl) else size == 0)
    ensures Inv(cl, AddInterrupt(s, c, size, beat, pos))
  {
    var context := FindByActag(s.clients, c.actag);
    hide Inv, AddCmd, HasTag, FindByActag;
    var wake := c.opcode == 0x5c;
    if context.Some? {
      AddInv(cl, s, NewEvent(context.value, c, if wake then CmdWake else CmdInterrupt, AddrOf(c),
                             if size == -1 then 65535 else size, Idle, 0, if wake then WAKE_RESP else INTRP_RESP),
                                 beat, pos);
    }
  }

  lemma ParseInv(cl: nat, s: State, c: AfuCmd, beat: Option<LineBeat>, pos: nat)
    requires ValidCl(cl) && Inv(cl, s) && pos <= |s.list| && !HasTag(s.list, c.afutag)
    ensures Inv(cl, ParseCmd(s, c, beat, pos))
  {
    var r := s.(cdata := beat);
    SameList(cl, s, r);
    var tagged := r.(clients := AssignActag(s.clients, c, 0));
    SameList(cl, s, tagged);
    hide Inv, HasTag, AddChecked, AddAmo, AddInterrupt, AddFail, AssignActag;
    var o := c.opcode;
    if IsRead(o) {
      AddCheckedInv(cl, r, c, CmdRead, DlToSize(c.dl), DlToSize(c.dl), Idle, READ_FAILED, READ_RESP, None, pos);
    } else if IsPartialRead(o) {
      AddCheckedInv(cl, r, c, CmdRead, PlToSize(c.pl), PlToSize(c.pl), Idle, READ_FAILED, READ_RESP, None, pos);
    } else if IsWrite(o) {
      AddCheckedInv(cl, s, c, CmdWrite, DlToSize(c.dl), DlToSize(c.dl), Idle, WRITE_FAILED, WRITE_RESP, beat, pos);
    } else if IsPartialWrite(o) {
      AddCheckedInv(cl, s, c, CmdWrite, PlToSize(c.pl), PlToSize(c.pl), Idle, WRITE_FAILED, WRITE_RESP, beat, pos);
    } else if IsWriteBe(o) {
      AddCheckedInv(cl, s, c, CmdWrBe, 64, 64, Idle, WRITE_FAILED, WRITE_RESP, beat, pos);
    } else if IsAmoRd(o) || IsAmoRw(o) || IsAmoW(o) {
      AddAmoInv(cl, s, c, beat, pos);
    } else if IsInterrupt(o) {
      AddInterruptInv(cl, s, c, if o == 0x5a then PlToSize(c.pl) else 0, beat, pos);
    } else if IsTouch(o) {
      AddCheckedInv(cl, r, c, CmdTouch, 64, 0, Done, TOUCH_RESP, TOUCH_RESP, None, pos);
    } else if o != 0 && o != 0x50 {
      AddFailInv(cl, s, c, RESPONSE_FAILED, RESPONSE_FAILED, pos);
    }
  }

  lemma CmdInv(cl: nat, s: State, pos: nat)
    requires ValidCl(cl) && Inv(cl, s) && pos <= |s.list|
    ensures Inv(cl, HandleCmd(s, pos))
  {
    if s.cmd.Some? {
      var taken := s.(cmd := None, cdata := None);
      SameList(cl, s, taken);
      hide Inv, ParseCmd, HasTag;
      if !HasTag(s.list, s.cmd.value.afutag) {
        ParseInv(cl, taken, s.cmd.value, s.cdata, pos);
      }
    }
  }
}
