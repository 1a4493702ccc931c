/** Runs of the command engine built one step at a time, in which the failing inputs of the other modules are
    reached. */
module CmdInputs {
  import opened Common
  import opened TlxPacket
  import opened CmdEngine
  import opened CmdTheorems

  /** rd_wnitc of 64 bytes at address 0. */
  const READ_64 := AfuCmd(0x10, 0, 0, OBJ, 7, 1, 0, 0, 0, 0, 0, 0, 0)

  /** amo_rd with pl 0, and amo_rd.n of four bytes. */
  const AMO_RD_0 := AfuCmd(0x38, 0, 0, OBJ, 7, 0, 0, 0, 0, 0, 0, 0, 0)
  const AMO_RD_N := AfuCmd(0x3c, 0, 0, OBJ, 7, 0, 2, 0, 0, 0, 0, 0, 0)

  /** A client that has just attached. */
  const CLIENT := Client(0, 0, 0, None, 0)

  /** A run grows by one enabled step. */
  lemma RunMore(cl: nat, maxClients: nat, states: seq<State>, steps: seq<Step>, a: Step, t: State)
    requires Run(cl, maxClients, states, steps)
    requires Enabled(cl, states[|steps|], a) && t == Next(cl, states[|steps|], a)
    ensures Run(cl, maxClients, states + [t], steps + [a])
  {
    hide Enabled, Next, Initial;
    var xs, acts := states + [t], steps + [a];
    forall i | 0 <= i < |acts| ensures Enabled(cl, xs[i], acts[i]) && xs[i + 1] == Next(cl, xs[i], acts[i]) {
      if i < |steps| {
        assert xs[i] == states[i] && xs[i + 1] == states[i + 1] && acts[i] == steps[i];
      }
    }
  }

  /** One client, one command with actag 0, and nothing else. */
  function Alone(list: seq<Ev>, client: Client, retired: seq<Ev>, asked: seq<HostReq>): State {
    State(list, [Some(client)], None, None, retired, asked, [])
  }

  /** A client attaches and a command arrives on an empty list. */
  lemma Arrives(cl: nat, c: AfuCmd, beat: Option<LineBeat>, e: Ev) returns (states: seq<State>, steps: seq<Step>)
    requires HandleCmd(State([], [Some(CLIENT)], Some(c), beat, [], [], []), 0) == Alone([e], CLIENT, [], [])
    ensures Run(cl, 1, states, steps) && states[|steps|] == Alone([e], CLIENT, [], [])
  {
    hide HandleCmd;
    states, steps := [Initial(1)], [];
    var s1 := State([], [Some(CLIENT)], None, None, [], [], []);
    RunMore(cl, 1, states, steps, Attach(0, 0, 0), s1);
    states, steps := states + [s1], steps + [Attach(0, 0, 0)];
    var s2 := s1.(cmd := Some(c), cdata := beat);
    RunMore(cl, 1, states, steps, Receive(Some(c), beat), s2);
    states, steps := states + [s2], steps + [Receive(Some(c), beat)];
    var s3 := Alone([e], CLIENT, [], []);
    RunMore(cl, 1, states, steps, Parse(0), s3);
    states, steps := states + [s3], steps + [Parse(0)];
  }

  /** The run one enabled step longer. */
  lemma Extended(cl: nat, states: seq<State>, steps: seq<Step>, a: Step) returns (xs: seq<State>, acts: seq<Step>)
    requires Run(cl, 1, states, steps) && Enabled(cl, states[|steps|], a)
    ensures Run(cl, 1, xs, acts) && |xs| == |acts| + 1 && xs[|acts|] == Next(cl, states[|steps|], a)
  {
    xs, acts := states + [Next(cl, states[|steps|], a)], steps + [a];
    RunMore(cl, 1, states, steps, a, xs[|steps| + 1]);
  }

  lemma AddrZero(c: AfuCmd)
    requires c.eaOrObj == OBJ
    ensures AddrOf(c) == 0
  {
    ZeroValue(8);
    assert Zeros(8) == [0, 0, 0, 0, 0, 0, 0, 0];
  }

  lemma {:induction false} ZeroValue(k: nat)
    ensures FromBigEndian(Zeros(k)) == 0
  {
    if k > 0 {
      ZeroValue(k - 1);
      assert Zeros(k)[..k - 1] == Zeros(k - 1) && Zeros(k)[1..] == Zeros(k - 1);
    }
  }

  lemma OneFound(c: AfuCmd)
    requires c.actag == 0
    ensures FindByActag([Some(CLIENT)], c.actag) == Some(0)
  {
  }

  /** A command found to be right goes onto the empty list. */
  lemma FoundAlone(c: AfuCmd, typ: CmdType, size: nat, state: MemState, resp: Byte, opcode: Byte,
      beat: Option<LineBeat>)
    requires c.actag == 0
    ensures var e := NewEvent(0, c, typ, 0, size, state, resp, opcode);
      AddFound(State([], [Some(CLIENT)], None, None, [], [], []), c, typ, 0, size, state, resp, opcode, beat, 0)
        == Alone([if beat.Some? then Fill(e, beat.value) else e], CLIENT, [], [])
  {
    OneFound(c);
    hide FindByActag, NewEvent, Fill;
  }

  /** An alone command is asked of its client, answered by it, and answered for. */
  lemma AloneRead(cl: nat, e: Ev)
    requires e.typ == CmdRead && e.state == Idle && e.context == 0
    ensures Next(cl, Alone([e], CLIENT, [], []), BufferWrite(UNREFUSED))
      == Alone([e.(state := Request)], CLIENT.(access := Some(e.afutag), unanswered := 1), [],
               [ReadReq(0, e.afutag, e.addr, e.size)])
  {
    assert First([e], ToRead) == 0;
  }

  lemma AloneAnswered(cl: nat, e: Ev, ok: bool, bytes: seq<Byte>, asked: seq<HostReq>)
    requires AnswerFits(e, ok, bytes)
    ensures var s := Alone([e], CLIENT.(access := Some(e.afutag), unanswered := 1), [], asked);
      && Enabled(cl, s, ClientAnswer(0, ok, bytes))
      && Next(cl, s, ClientAnswer(0, ok, bytes))
        == Alone([if ok then MemReturn(e, bytes) else Aerror(e)], CLIENT, [], asked)
  {
    hide MemReturn, Aerror, AnswerFits;
    var s := Alone([e], CLIENT.(access := Some(e.afutag), unanswered := 1), [], asked);
    assert s.list[0] == e && HasTag(s.list, e.afutag) && TagIndex(s.list, e.afutag) == 0;
  }

  lemma AloneLeaves(cl: nat, e: Ev, asked: seq<HostReq>)
    requires e.state == Done && !Splits(cl, e) && e.bytesSent == 0 && (AnswersWithData(e) ==> PayloadInBuffer(e))
    ensures var s := Alone([e], CLIENT, [], asked);
      && Enabled(cl, s, Respond(true))
      && Next(cl, s, Respond(true)) == Alone([], CLIENT, [Sent(e, MsgOf(e))], asked)
  {
    hide MsgOf, PayloadInBuffer, AnswersWithData;
    assert First([e], ToRespond) == 0;
  }

  lemma AloneOperate(cl: nat, e: Ev)
    requires e.typ == CmdAmoRd && e.state == Received && e.context == 0
    ensures var s := Alone([e], CLIENT, [], []);
      && Enabled(cl, s, Operate(UNREFUSED))
      && Next(cl, s, Operate(UNREFUSED))
        == Alone([e], CLIENT.(access := Some(e.afutag), unanswered := 1), [], [OpReqOf(e)])
  {
    assert First([e], ToOperate) == 0;
    assert e.(state := e.state) == e;
  }
}
