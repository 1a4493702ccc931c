/** Which commands enter the list, as what, and what they still say of how they came (ocse/cmd.c). */
module CmdArrivals {
  import opened Common
  import opened TlxPacket
  import opened CmdEngine
  import opened CmdInvariant
  import opened CmdTheorems
  import opened CmdKinds
  import opened CmdCodes

  // ---------- what enters the list ----------

  /** t is s with one command more at pos, or none. */
  ghost predicate Adds(s: State, t: State, pos: nat, c: AfuCmd, adds: bool)
    requires pos <= |s.list|
  {
    if !adds then t.list == s.list
    else
      && |t.list| == |s.list| + 1 && t.list[..pos] == s.list[..pos] && t.list[pos + 1..] == s.list[pos..]
      && t.list[pos].came == c && t.list[pos].hist == []
      && Some(t.list[pos].context) == FindByActag(s.clients, c.actag)
  }

  lemma FoundAdds(s: State, c: AfuCmd, typ: CmdType, addr: U64, size: nat, state: MemState, resp: Byte, opcode: Byte,
                  beat: Option<LineBeat>, pos: nat)
    requires pos <= |s.list|
    ensures Adds(s, AddFound(s, c, typ, addr, size, state, resp, opcode, beat, pos), pos, c,
      FindByActag(s.clients, c.actag).Some?)
  {
    var f := FindByActag(s.clients, c.actag);
    hide FindByActag, DataExpected;
    if f.Some? {
      var e := NewEvent(f.value, c, typ, addr, size, state, resp, opcode);
      InsertAdds(s.list, pos, e);
      if beat.Some? {
        InsertAdds(s.list, pos, Fill(e, beat.value));
      }
      hide Insert;
    }
  }

  lemma InsertAdds(list: seq<Ev>, pos: nat, e: Ev)
    requires pos <= |list|
    ensures var t := Insert(list, pos, e);
      |t| == |list| + 1 && t[pos] == e && t[..pos] == list[..pos] && t[pos + 1..] == list[pos..]
  {
  }

  lemma CheckedAdds(s: State, c: AfuCmd, typ: CmdType, size: int, eventSize: int, state: MemState, failed: Byte,
      ok: Byte, beat: Option<LineBeat>, pos: nat)
    requires pos <= |s.list| && (size == -1 || size > 0) && (size > 0 ==> eventSize >= 0)
    ensures Adds(s, AddChecked(s, c, typ, size, eventSize, state, failed, ok, beat, pos), pos, c,
      FindByActag(s.clients, c.actag).Some?)
  {
    var a := AddrOf(c);
    hide Adds, AddFound, AddrOf, FindByActag;
    FoundAdds(s, c, CmdFailed, 0, 0, Done, 0x09, failed, None, pos);
    FoundAdds(s, c, CmdFailed, 0, 0, Done, 0x0b, failed, None, pos);
    if size > 0 {
      FoundAdds(s, c, typ, a, eventSize, state, 0, ok, beat, pos);
    }
  }

  lemma AmoAdds(s: State, c: AfuCmd, beat: Option<LineBeat>, pos: nat)
    requires pos <= |s.list|
    ensures Adds(s, AddAmo(s, c, beat, pos), pos, c, FindByActag(s.clients, c.actag).Some?)
  {
    hide Adds, AddFound, AddrOf, FindByActag, AmoBadSize;
    var asRead := IsAmoRw(c.opcode) || c.opcode == 0x38;
    if AmoBadSize(c).Some? {
      FoundAdds(s, c, CmdFailed, 0, 0, Done, 0x09, AmoBadSize(c).value, None, pos);
    }
    FoundAdds(s, c, CmdFailed, 0, 0, Done, 0x0b, if asRead then READ_FAILED else WRITE_FAILED, None, pos);
    FoundAdds(s, c, AmoType(c.opcode), AddrOf(c), if c.pl in {2, 6} then 4 else 8, Idle, 0,
              if asRead then READ_RESP else WRITE_RESP, beat, pos);
  }

  lemma ParseAdds(s: State, c: AfuCmd, beat: Option<LineBeat>, pos: nat)
    requires pos <= |s.list|
    ensures Adds(s, ParseCmd(s, c, beat, pos), pos, c, Judge(c) != Ignored && FindByActag(s.clients, c.actag).Some?)
  {
    var r := s.(cdata := beat);
    var o := c.opcode;
    assert Judge(c) == Ignored <==> o == 0 || o == 0x50;
    hide Adds, AddChecked, AddAmo, AddFound, FindByActag, AddrOf, Judge, DlToSize, PlToSize;
    SameClients(s, r, ParseCmd(s, c, beat, pos), pos, c);
    if o == 0x50 || o == 0 {
      NothingAdded(s, ParseCmd(s, c, beat, pos), pos, c);
    } else if IsRead(o) {
      SizesOf(c.dl);
      CheckedAdds(r, c, CmdRead, DlToSize(c.dl), DlToSize(c.dl), Idle, READ_FAILED, READ_RESP, None, pos);
    } else if IsPartialRead(o) {
      SizesOf(c.pl);
      CheckedAdds(r, c, CmdRead, PlToSize(c.pl), PlToSize(c.pl), Idle, READ_FAILED, READ_RESP, None, pos);
    } else if IsWrite(o) {
      SizesOf(c.dl);
      CheckedAdds(s, c, CmdWrite, DlToSize(c.dl), DlToSize(c.dl), Idle, WRITE_FAILED, WRITE_RESP, beat, pos);
    } else if IsPartialWrite(o) {
      SizesOf(c.pl);
      CheckedAdds(s, c, CmdWrite, PlToSize(c.pl), PlToSize(c.pl), Idle, WRITE_FAILED, WRITE_RESP, beat, pos);
    } else if IsWriteBe(o) {
      CheckedAdds(s, c, CmdWrBe, 64, 64, Idle, WRITE_FAILED, WRITE_RESP, beat, pos);
    } else if IsAmoRd(o) || IsAmoRw(o) || IsAmoW(o) {
      AmoAdds(s, c, beat, pos);
    } else if IsInterrupt(o) {
      var wake, size := o == 0x5c, if o == 0x5a then PlToSize(c.pl) else 0;
      SizesOf(c.pl);
      FoundAdds(s, c, if wake then CmdWake else CmdInterrupt, AddrOf(c), if size == -1 then 65535 else size, Idle, 0,
                if wake then WAKE_RESP else INTRP_RESP, beat, pos);
    } else if IsTouch(o) {
      CheckedAdds(r, c, CmdTouch, 64, 0, Done, TOUCH_RESP, TOUCH_RESP, None, pos);
    } else {
      FoundAdds(s, c, CmdFailed, 0, 0, Done, RESPONSE_FAILED, RESPONSE_FAILED, None, pos);
    }
  }

  lemma SizesOf(x: Byte)
    ensures (DlToSize(x) == -1 || DlToSize(x) > 0) && (PlToSize(x) == -1 || PlToSize(x) > 0)
  {
  }

  lemma SameClients(s: State, r: State, t: State, pos: nat, c: AfuCmd)
    requires pos <= |s.list| && r.list == s.list && r.clients == s.clients
    ensures forall adds :: Adds(r, t, pos, c, adds) <==> Adds(s, t, pos, c, adds)
  {
    hide FindByActag;
  }

  lemma NothingAdded(s: State, t: State, pos: nat, c: AfuCmd)
    requires pos <= |s.list| && t.list == s.list
    ensures Adds(s, t, pos, c, false)
  {
  }

  /** handle_cmd adds the staged command, for the first client with its actag and exactly at the place allow_reorder
      chooses, if and only if it has a tag not in flight, an actag some client has, and is no NOP or actag assignment;
      otherwise the list stays as it is. */
  lemma ArrivesExactly(s: State, pos: nat)
    requires pos <= |s.list| && s.cmd.Some?
    ensures var c := s.cmd.value;
      Adds(s, HandleCmd(s, pos), pos, c,
        !HasTag(s.list, c.afutag) && Judge(c) != Ignored && FindByActag(s.clients, c.actag).Some?)
  {
    var c, taken := s.cmd.value, s.(cmd := None, cdata := None);
    hide Adds, ParseCmd, HasTag, Judge, FindByActag;
    SameClients(s, taken, HandleCmd(s, pos), pos, c);
    if HasTag(s.list, c.afutag) {
      NothingAdded(s, HandleCmd(s, pos), pos, c);
    } else {
      ParseAdds(taken, c, s.cdata, pos);
    }
  }

  /** assign_actag goes to the first client with the command's bdf and PASID and to no other, adds no command, and from
      then on commands with that actag are found for that client, or for one before it that had the actag already. */
  lemma ActagGoesTo(s: State, pos: nat, k: nat)
    requires pos <= |s.list| && s.cmd.Some? && s.cmd.value.opcode == 0x50 && !HasTag(s.list, s.cmd.value.afutag)
    requires k < |s.clients| && s.clients[k].Some?
    requires s.clients[k].value.bdf == s.cmd.value.bdf && s.clients[k].value.pasid == s.cmd.value.pasid
    requires forall j :: 0 <= j < k && s.clients[j].Some? ==>
      s.clients[j].value.bdf != s.cmd.value.bdf || s.clients[j].value.pasid != s.cmd.value.pasid
    ensures var c, t := s.cmd.value, HandleCmd(s, pos);
      && t.list == s.list && t.clients == s.clients[k := Some(s.clients[k].value.(actag := c.actag))]
      && FindByActag(t.clients, c.actag).Some? && FindByActag(t.clients, c.actag).value <= k
  {
    hide HasTag, FindByActag;
    var c, taken := s.cmd.value, s.(cmd := None, cdata := None);
    assert HandleCmd(s, pos) == ParseCmd(taken, c, s.cdata, pos);
    var r := AssignActag(s.clients, c, 0);
    assert Owns(s.clients[k], c) && forall j :: 0 <= j < k ==> !Owns(s.clients[j], c);
    assert r == s.clients[k := r[k]];
  }

  // ---------- what a command says of how it came ----------

  /** In every run a command that was not failed on arrival has the address its first eight bytes give, least
      significant first, the length its dl or pl stands for, and the tag, byte enables, flag and endianness it came
      with. */
  lemma CameAs(cl: nat, maxClients: nat, states: seq<State>, steps: seq<Step>, n: nat, e: Ev)
    requires ValidCl(cl) && Run(cl, maxClients, states, steps) && n < |states|
    requires e in states[n].list || e in states[n].retired
    ensures var c, k := e.came, KindOf(e.came.opcode);
      && e.afutag == c.afutag && e.command == c.opcode
      && (Judge(c) == Accepted ==>
            && e.addr == FromLittleEndian(c.eaOrObj[..8]) && e.size == SizeNow(e)
            && (k == ByteWrite ==> e.wrBe == c.be)
            && (Amo(k) ==> e.flag == c.flag && e.endian == c.endian)
            && (k in {Signal, SignalData, Wake} ==> e.flag == c.flag))
  {
    RunCodes(cl, maxClients, states, steps, n);
    assert Coded(e);
    hide Run, FromLittleEndian, SizeNow, Length;
  }

  /** In every run a command is failed with 0x0b if and only if it is a memory command or a touch of a good length whose
      address is not a multiple of that length, and with 0x09 if and only if it is one whose dl or pl stands for no
      length. */
  lemma FailedOnArrival(cl: nat, maxClients: nat, states: seq<State>, steps: seq<Step>, n: nat, e: Ev)
    requires ValidCl(cl) && Run(cl, maxClients, states, steps) && n < |states|
    requires e in states[n].list || e in states[n].retired
    ensures var c, k := e.came, KindOf(e.came.opcode);
      var checked, length := Reads(k) || Writes(k) || k == Touch, Length(c);
      && (length.Some? ==> length.value > 0)
      && (e.resp == 0x0b && e.state != PendingSent <==>
            checked && length.Some? && FromLittleEndian(c.eaOrObj[..8]) % length.value != 0)
      && (e.resp == 0x09 && e.state != PendingSent <==> checked && length.None?)
  {
    RunCodes(cl, maxClients, states, steps, n);
    assert Coded(e);
    LengthPositive(e.came);
    hide Run, FromLittleEndian, SizeNow, Length, OpcodeOf;
  }

  lemma LengthPositive(c: AfuCmd)
    ensures Length(c).Some? ==> Length(c).value > 0
  {
  }
}
