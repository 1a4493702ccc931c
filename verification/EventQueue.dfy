/** The three-slot event queue of libocxl/libocxl.c: translation faults and interrupts coalesced to one of each,
    popped in arrival order, with one unread pipe byte for each. */
module EventQueue {
  import opened Common

  const EVENT_QUEUE_MAX: nat := 3

  datatype Event = Fault(addr: U64) | Irq(irq: nat, handle: U64, count: nat)

  datatype EventType = TranslationFault | IrqEvent

  function TypeOf(e: Event): EventType { if e.Fault? then TranslationFault else IrqEvent }

  function Types(q: seq<Event>): (t: seq<EventType>)
    ensures |t| == |q|
  {
    seq(|q|, i requires 0 <= i < |q| => TypeOf(q[i]))
  }

  predicate HasType(q: seq<Event>, t: EventType) {
    exists i :: 0 <= i < |q| && TypeOf(q[i]) == t
  }

  /** At most one event of each type; there are two types, so at most two events. */
  predicate Coalesced(q: seq<Event>) {
    forall i, j :: 0 <= i < j < |q| ==> TypeOf(q[i]) != TypeOf(q[j])
  }

  lemma ThreeCollide(q: seq<Event>)
    requires |q| >= EVENT_QUEUE_MAX
    ensures !Coalesced(q)
  {
    var a, b, c := TypeOf(q[0]), TypeOf(q[1]), TypeOf(q[2]);
    assert a == b || b == c || a == c;
  }

  lemma CoalescedIsShort(q: seq<Event>)
    requires Coalesced(q)
    ensures |q| < EVENT_QUEUE_MAX
  {
    hide Coalesced;
    if |q| >= EVENT_QUEUE_MAX {
      ThreeCollide(q);
    }
  }

  /** What both handlers do to the queue: an event is kept only when none of its type waits. */
  function Post(q: seq<Event>, e: Event): seq<Event> {
    if HasType(q, TypeOf(e)) then q else q + [e]
  }

  /** An interrupt source this application has allocated. */
  datatype Source = Source(irq: nat, id: U64)

  /** The interrupt event an arriving id stands for: its first match decides, and without one nothing is queued. */
  function Matching(irqs: seq<Source>, id: U64): Option<Event> {
    if irqs == [] then None
    else if irqs[0].id == id then Some(Irq(irqs[0].irq, id, 1))
    else Matching(irqs[1..], id)
  }

  datatype Op = Dsi(addr: U64) | Interrupt(id: U64) | Take

  /** A run: the queue, every event that entered it and every event handed to the application, both in order. */
  datatype Run = Run(queue: seq<Event>, entered: seq<Event>, taken: seq<Event>)

  function PageOf(addr: U64): U64 { addr / 0x1000 * 0x1000 }

  function Enter(r: Run, e: Event): Run {
    if HasType(r.queue, TypeOf(e)) then r else r.(queue := Post(r.queue, e), entered := r.entered + [e])
  }

  /** Taking from an empty queue waits, so it changes nothing. */
  function Step(irqs: seq<Source>, r: Run, op: Op): Run {
    match op
    case Dsi(addr) => Enter(r, Fault(PageOf(addr)))
    case Interrupt(id) => (
      match Matching(irqs, id)
      case None => r
      case Some(e) => Enter(r, e))
    case Take => if r.queue == [] then r else Run(r.queue[1..], r.entered, r.taken + [r.queue[0]])
  }

  function RunOf(irqs: seq<Source>, ops: seq<Op>): Run {
    if ops == [] then Run([], [], [])
    else Step(irqs, RunOf(irqs, ops[..|ops| - 1]), ops[|ops| - 1])
  }

  lemma PostCoalesces(q: seq<Event>, e: Event)
    requires Coalesced(q)
    ensures Coalesced(Post(q, e))
  {
  }

  /** Over any run of faults, interrupts and takes: events are taken in the order they entered, none lost and none
      twice, and what waits is at most one event of each type. */
  lemma {:induction false} TakenInOrder(irqs: seq<Source>, ops: seq<Op>)
    ensures var r := RunOf(irqs, ops);
            r.entered == r.taken + r.queue && Coalesced(r.queue) && |r.queue| < EVENT_QUEUE_MAX
  {
    if ops != [] {
      TakenInOrder(irqs, ops[..|ops| - 1]);
      var r, op := RunOf(irqs, ops[..|ops| - 1]), ops[|ops| - 1];
      var s := Step(irqs, r, op);
      assert s.entered == s.taken + s.queue && Coalesced(s.queue) by {
        match op
        case Dsi(addr) => PostCoalesces(r.queue, Fault(PageOf(addr)));
        case Interrupt(id) => if Matching(irqs, id).Some? { PostCoalesces(r.queue, Matching(irqs, id).value); }
        case Take =>
      }
      CoalescedIsShort(s.queue);
    }
  }

  class Queue {
    const events: array<Option<Event>>
    const irqs: seq<Source>
    var pipe: seq<EventType>     // bytes written to the pipe and not yet read
    ghost var queue: seq<Event>

    /** The slots are the queue followed by nulls, so every scan for the first null stops inside the array. */
    ghost predicate Valid()
      reads this, events
    {
      && events.Length == EVENT_QUEUE_MAX && Coalesced(queue) && |queue| < EVENT_QUEUE_MAX
      && (forall i :: 0 <= i < |queue| ==> events[i] == Some(queue[i]))
      && (forall i :: |queue| <= i < EVENT_QUEUE_MAX ==> events[i] == None)
      && pipe == Types(queue)
    }

    constructor (irqs: seq<Source>)
      ensures Valid() && queue == [] && this.irqs == irqs && fresh(events)
    {
      this.irqs := irqs;
      events := new Option<Event>[EVENT_QUEUE_MAX](_ => None);
      pipe, queue := [], [];
    }

    /** The scan both handlers share: the index of the first null, or whether an event of the type is queued. The
        assertion after the scan in the source is the second ensures clause. */
    method Scan(t: EventType) returns (i: nat, queued: bool)
      requires Valid()
      ensures queued == HasType(queue, t)
      ensures !queued ==> i == |queue| < EVENT_QUEUE_MAX
    {
      i, queued := 0, false;
      while events[i].Some?
        invariant i <= |queue| && forall j :: 0 <= j < i ==> TypeOf(queue[j]) != t
        decreases |queue| - i
      {
        if TypeOf(events[i].value) == t {
          return i, true;
        }
        i := i + 1;
      }
    }

    /** Stores a new event behind the queue and announces it on the pipe. */
    method Store(i: nat, e: Event)
      requires Valid() && i == |queue| && !HasType(queue, TypeOf(e))
      modifies this`pipe, this`queue, events
      ensures Valid() && queue == old(queue) + [e]
    {
      events[i] := Some(e);
      pipe := pipe + [TypeOf(e)];
      queue := queue + [e];
      CoalescedIsShort(queue);
    }

    /** _handle_dsi: one fault is tracked at a time, by page. */
    method HandleDsi(addr: U64)
      requires Valid()
      modifies this`pipe, this`queue, events
      ensures Valid() && queue == Post(old(queue), Fault(PageOf(addr)))
      ensures queue == Step(irqs, Run(old(queue), [], []), Dsi(addr)).queue
      ensures if exists i :: 0 <= i < |old(queue)| && old(queue)[i].Fault? then queue == old(queue)
              else
                && |queue| == |old(queue)| + 1 && queue[..|old(queue)|] == old(queue)
                && var e := queue[|old(queue)|];
                e.Fault? && e.addr % 4096 == 0 && e.addr <= addr < e.addr + 4096
    {
      var i, queued := Scan(TranslationFault);
      if !queued {
        Store(i, Fault(PageOf(addr)));
      }
    }

    /** _handle_interrupt: the source is looked up first; interrupts then coalesce, whatever their source. */
    method HandleInterrupt(id: U64) returns (known: bool)
      requires Valid()
      modifies this`pipe, this`queue, events
      ensures Valid() && known == Matching(irqs, id).Some?
      ensures queue == if known then Post(old(queue), Matching(irqs, id).value) else old(queue)
      ensures queue == Step(irqs, Run(old(queue), [], []), Interrupt(id)).queue
      ensures known <==> exists k :: 0 <= k < |irqs| && irqs[k].id == id
      ensures known && (forall i :: 0 <= i < |old(queue)| ==> old(queue)[i].Fault?) ==>
        exists k :: 0 <= k < |irqs| && irqs[k].id == id && (forall j :: 0 <= j < k ==> irqs[j].id != id)
          && queue == old(queue) + [Irq(irqs[k].irq, id, 1)]
    {
      var k := 0;
      while k < |irqs| && irqs[k].id != id
        invariant k <= |irqs| && Matching(irqs[k..], id) == Matching(irqs, id)
        invariant forall j :: 0 <= j < k ==> irqs[j].id != id
      {
        k := k + 1;
      }
      if k == |irqs| {
        return false;
      }
      known := true;
      var i, queued := Scan(IrqEvent);
      if !queued {
        Store(i, Irq(irqs[k].irq, id, 1));
      }
    }

    /** ocxl_afu_event_check_versioned once an event is there: the oldest is taken, the others move up, and the pipe
        byte read is its own. */
    method Pop() returns (e: Event, announced: EventType)
      requires Valid() && queue != []
      modifies this`pipe, this`queue, events
      ensures Valid() && e == old(queue)[0] && queue == old(queue)[1..]
      ensures announced == TypeOf(e) && pipe == old(pipe)[1..]
      ensures var r := Step(irqs, Run(old(queue), [], []), Take); r.queue == queue && r.taken == [e]
    {
      e := events[0].value;
      for i := 1 to EVENT_QUEUE_MAX
        modifies events
        invariant forall j :: 0 <= j < i - 1 ==> events[j] == old(events[j + 1])
        invariant forall j :: i <= j < EVENT_QUEUE_MAX ==> events[j] == old(events[j])
      {
        events[i - 1] := events[i];
      }
      events[EVENT_QUEUE_MAX - 1] := None;
      announced := pipe[0];
      pipe := pipe[1..];
      queue := queue[1..];
      assert pipe == Types(queue);
    }
  }
}
