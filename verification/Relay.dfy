/**
 The relay's slot quota (server/relay.go).  Allocations, packet closes and the closing of the whole relay
 run at the same time; every locked section and every channel operation is one step, and steps of
 different calls interleave freely.  A packet's release runs once: a second close waits for the first.
 */
module Relay {
  import opened Prelude

  type Call = nat  // one call of AllocatePacketConn, and the packet it may return

  datatype Phase =
    | Entered   // past the first closed check
    | Holding   // has a slot, is opening a socket
    | Opened    // has a socket, not yet in the map
    | Refused   // found the relay closed and must close its own socket
    | Live      // in the map, returned to the caller
    | Gone      // returned an error

  datatype Release = NotStarted | Deleted | Freed

  datatype Conn = Conn(phase: Phase, socketOpen: bool, release: Release)

  datatype Closer = Running | Closing(todo: set<Call>) | Returned

  datatype State = State(
    conns: map<Call, Conn>,
    packets: set<Call>,
    used: nat,       // occupied entries of the slots channel
    pending: nat,    // the wait group
    closer: Closer)

  const EMPTY := State(map[], {}, 0, 0, Running)

  datatype Step =
    | Enter(x: Call)
    | TakeSlot(x: Call, portOk: bool)
    | Open(x: Call, ok: bool)
    | Publish(x: Call)
    | CloseSocket(x: Call)    // by the owner, by a reader that found its session ended, or by the closer
    | StartRelease(x: Call)
    | FreeSlot(x: Call)
    | Done(x: Call)           // a refused allocation returns
    | BeginClose
    | PacketClosed(x: Call)   // the closer's wait on one packet ends
    | EndClose

  function Put(s: State, x: Call, c: Conn): State {
    s.(conns := s.conns[x := c])
  }

  predicate At(s: State, x: Call, p: Phase) {
    x in s.conns && s.conns[x].phase == p
  }

  function Less(n: nat): nat {
    if n == 0 then 0 else n - 1
  }

  function Next(s: State, capacity: nat, step: Step): State {
    match step
    case Enter(x) =>
      if x in s.conns then s
      else if s.closer != Running then Put(s, x, Conn(Gone, false, NotStarted))
      else Put(s, x, Conn(Entered, false, NotStarted)).(pending := s.pending + 1)
    case TakeSlot(x, portOk) =>
      if !At(s, x, Entered) then s
      else if portOk && s.used < capacity then Put(s, x, Conn(Holding, false, NotStarted)).(used := s.used + 1)
      else Put(s, x, Conn(Gone, false, NotStarted)).(pending := Less(s.pending))
    case Open(x, ok) =>
      if !At(s, x, Holding) then s
      else if ok then Put(s, x, Conn(Opened, true, NotStarted))
      else Put(s, x, Conn(Gone, false, NotStarted)).(used := Less(s.used), pending := Less(s.pending))
    case Publish(x) =>
      if !At(s, x, Opened) then s
      else if s.closer != Running then Put(s, x, Conn(Refused, true, NotStarted))
      else Put(s, x, Conn(Live, true, NotStarted)).(packets := s.packets + {x}, pending := Less(s.pending))
    case CloseSocket(x) =>
      if !At(s, x, Refused) && !At(s, x, Live) then s else Put(s, x, s.conns[x].(socketOpen := false))
    case StartRelease(x) =>
      if (!At(s, x, Refused) && !At(s, x, Live)) || s.conns[x].socketOpen || s.conns[x].release != NotStarted then s
      else Put(s, x, s.conns[x].(release := Deleted)).(packets := s.packets - {x})
    case FreeSlot(x) =>
      if x !in s.conns || s.conns[x].release != Deleted then s
      else Put(s, x, s.conns[x].(release := Freed)).(used := Less(s.used))
    case Done(x) =>
      if !At(s, x, Refused) || s.conns[x].release != Freed then s
      else Put(s, x, s.conns[x].(phase := Gone)).(pending := Less(s.pending))
    case BeginClose => if s.closer != Running then s else s.(closer := Closing(s.packets))
    case PacketClosed(x) =>
      if !s.closer.Closing? || x !in s.closer.todo || x !in s.conns || s.conns[x].release != Freed then s
      else s.(closer := Closing(s.closer.todo - {x}))
    case EndClose => if s.closer != Closing({}) || s.pending != 0 then s else s.(closer := Returned)
  }

  function Run(capacity: nat, steps: seq<Step>): State {
    if steps == [] then EMPTY else Next(Run(capacity, steps[..|steps| - 1]), capacity, steps[|steps| - 1])
  }

  // ---------------------------------------------------------------- the invariant

  predicate HoldsSlot(c: Conn) {
    (c.phase.Holding? || c.phase.Opened? || c.phase.Refused? || c.phase.Live?) && c.release != Freed
  }

  predicate InFlight(c: Conn) {
    c.phase.Entered? || c.phase.Holding? || c.phase.Opened? || c.phase.Refused?
  }

  function Holders(s: State): set<Call> {
    set x | x in s.conns && HoldsSlot(s.conns[x])
  }

  function Flying(s: State): set<Call> {
    set x | x in s.conns && InFlight(s.conns[x])
  }

  ghost predicate Shape(c: Conn) {
    && (c.release != NotStarted ==>
          && !c.socketOpen
          && (c.phase.Refused? || c.phase.Live? || (c.phase.Gone? && c.release == Freed)))
    && (c.socketOpen ==> c.phase.Opened? || c.phase.Refused? || c.phase.Live?)
  }

  ghost predicate Inv(s: State, capacity: nat) {
    && s.used == |Holders(s)| <= capacity
    && s.pending == |Flying(s)|
    && (forall x | x in s.conns :: Shape(s.conns[x]))
    && (forall x :: x in s.packets <==> At(s, x, Live) && s.conns[x].release == NotStarted)
    && (s.closer.Closing? ==> s.packets <= s.closer.todo && forall x | x in s.closer.todo :: At(s, x, Live))
    && (s.closer.Returned? ==> s.packets == {} && Flying(s) == {})
  }

  lemma WithAndWithout(a: set<Call>, x: Call)
    ensures |a| == |a - {x}| + if x in a then 1 else 0
  {
    assert x in a ==> a == (a - {x}) + {x};
    assert x !in a ==> a == a - {x};
  }

  /** One connection changes: what that does to the number of holders. */
  lemma PutHolders(s: State, x: Call, c: Conn)
    ensures |Holders(Put(s, x, c))| == |Holders(s)| - (if Occupies(s, x) then 1 else 0)
        + (if HoldsSlot(c) then 1 else 0)
  {
    var s' := Put(s, x, c);
    assert forall y | y != x :: y in Holders(s') <==> y in Holders(s);
    assert Holders(s') - {x} == Holders(s) - {x};
    WithAndWithout(Holders(s), x);
    WithAndWithout(Holders(s'), x);
  }

  /** The same for the allocations under way. */
  lemma PutFlying(s: State, x: Call, c: Conn)
    ensures |Flying(Put(s, x, c))| == |Flying(s)| - (if UnderWay(s, x) then 1 else 0) + (if InFlight(c) then 1 else 0)
  {
    var s' := Put(s, x, c);
    assert forall y | y != x :: y in Flying(s') <==> y in Flying(s);
    assert Flying(s') - {x} == Flying(s) - {x};
    WithAndWithout(Flying(s), x);
    WithAndWithout(Flying(s'), x);
  }

  predicate Occupies(s: State, x: Call) {
    x in s.conns && HoldsSlot(s.conns[x])
  }

  predicate UnderWay(s: State, x: Call) {
    x in s.conns && InFlight(s.conns[x])
  }

  /** The counts follow one changed connection. */
  lemma PutCounts(s: State, s': State, x: Call, c: Conn)
    requires s.used == |Holders(s)| && s.pending == |Flying(s)| && s'.conns == s.conns[x := c]
    requires s'.used == s.used - (if Occupies(s, x) then 1 else 0) + (if HoldsSlot(c) then 1 else 0)
    requires s'.pending == s.pending - (if UnderWay(s, x) then 1 else 0) + (if InFlight(c) then 1 else 0)
    ensures s'.used == |Holders(s')| && s'.pending == |Flying(s')|
  {
    PutHolders(s, x, c);
    PutFlying(s, x, c);
    assert Holders(s') == Holders(Put(s, x, c)) && Flying(s') == Flying(Put(s, x, c));
  }

  lemma PutKeeps(s: State, s': State, capacity: nat, x: Call, c: Conn)
    requires Inv(s, capacity) && s'.conns == s.conns[x := c] && s'.closer == s.closer && Shape(c)
    requires s'.used == s.used - (if Occupies(s, x) then 1 else 0) + (if HoldsSlot(c) then 1 else 0)
    requires s'.pending == s.pending - (if UnderWay(s, x) then 1 else 0) + (if InFlight(c) then 1 else 0)
    requires s'.used <= capacity
    requires s'.packets == if c.phase.Live? && c.release == NotStarted then s.packets + {x} else s.packets - {x}
    requires s.closer != Running && x in s'.packets ==> x in s.packets
    requires s.closer.Returned? ==> !InFlight(c)
    requires s.closer.Closing? && x in s.closer.todo ==> c.phase.Live?
    ensures Inv(s', capacity)
  {
    PutCounts(s, s', x, c);
    if s.closer.Returned? {
      assert forall y | y in s'.conns :: InFlight(s'.conns[y]) ==> y in Flying(s);
    }
  }

  lemma HolderCounted(s: State, capacity: nat, x: Call)
    requires Inv(s, capacity) && x in s.conns
    ensures HoldsSlot(s.conns[x]) ==> s.used > 0
    ensures InFlight(s.conns[x]) ==> s.pending > 0 && !s.closer.Returned?
  {
    if HoldsSlot(s.conns[x]) { assert x in Holders(s); }
    if InFlight(s.conns[x]) { assert x in Flying(s); }
  }

  /** The steps of an allocation that is still under way. */
  lemma AllocationKeepsInv(s: State, capacity: nat, step: Step)
    requires Inv(s, capacity) && (step.Enter? || step.TakeSlot? || step.Open? || step.Publish?)
    ensures Inv(Next(s, capacity, step), capacity)
  {
    var s' := Next(s, capacity, step);
    if s' != s {
      if step.x in s.conns { HolderCounted(s, capacity, step.x); }
      PutKeeps(s, s', capacity, step.x, s'.conns[step.x]);
    }
  }

  /** The steps that give an allocation back. */
  lemma ReleaseKeepsInv(s: State, capacity: nat, step: Step)
    requires Inv(s, capacity) && (step.CloseSocket? || step.StartRelease? || step.FreeSlot? || step.Done?)
    ensures Inv(Next(s, capacity, step), capacity)
  {
    var s' := Next(s, capacity, step);
    if s' != s {
      HolderCounted(s, capacity, step.x);
      PutKeeps(s, s', capacity, step.x, s'.conns[step.x]);
    }
  }

  lemma StepKeepsInv(s: State, capacity: nat, step: Step)
    requires Inv(s, capacity)
    ensures Inv(Next(s, capacity, step), capacity)
  {
    if step.Enter? || step.TakeSlot? || step.Open? || step.Publish? {
      AllocationKeepsInv(s, capacity, step);
    } else if step.CloseSocket? || step.StartRelease? || step.FreeSlot? || step.Done? {
      ReleaseKeepsInv(s, capacity, step);
    } else {
      var s' := Next(s, capacity, step);
      assert Holders(s') == Holders(s) && Flying(s') == Flying(s);
    }
  }

  /**
   Over every interleaving: the occupied slots are exactly the allocations that hold one, never more than
   the capacity, so that giving one back never blocks.  Once the close of the relay has returned, no
   allocation is under way, the map is empty, every socket is closed, and a slot is still occupied only by a
   release that is past its map delete.
   */
  lemma {:induction false} SlotsAreConserved(capacity: nat, steps: seq<Step>)
    ensures var s := Run(capacity, steps);
      && Inv(s, capacity)
      && s.used == |Holders(s)| <= capacity
      && (forall x | x in s.conns && HoldsSlot(s.conns[x]) :: s.used > 0)
      && (s.closer == Returned ==>
            && s.pending == 0 && s.packets == {}
            && (forall x | x in s.conns :: !s.conns[x].socketOpen)
            && Holders(s) == set x | x in s.conns && s.conns[x].phase == Live && s.conns[x].release == Deleted)
  {
    var s := Run(capacity, steps);
    if steps == [] {
      assert Holders(s) == {} && Flying(s) == {};
    } else {
      var k := |steps| - 1;
      SlotsAreConserved(capacity, steps[..k]);
      StepKeepsInv(Run(capacity, steps[..k]), capacity, steps[k]);
    }
    forall x | x in s.conns && HoldsSlot(s.conns[x]) ensures s.used > 0 {
      HolderCounted(s, capacity, x);
    }
    if s.closer == Returned {
      forall x | x in s.conns ensures !s.conns[x].socketOpen {
        assert x !in Flying(s) && x !in s.packets;
      }
      forall x | x in Holders(s) ensures s.conns[x].phase == Live && s.conns[x].release == Deleted {
        assert x !in Flying(s) && x !in s.packets;
      }
    }
  }

  /** Whether a step gives the slot of an allocation back. */
  predicate GivesBack(s: State, s': State, x: Call) {
    x in s.conns && HoldsSlot(s.conns[x]) && !(x in s'.conns && HoldsSlot(s'.conns[x]))
  }

  /** How often the slot of an allocation was given back. */
  function Frees(capacity: nat, steps: seq<Step>, x: Call): nat {
    if steps == [] then 0
    else
      var k := |steps| - 1;
      Frees(capacity, steps[..k], x)
      + if GivesBack(Run(capacity, steps[..k]), Run(capacity, steps), x) then 1 else 0
  }

  /** Before it takes a slot, while it holds one, after it gave it back: an allocation only moves forward. */
  function Stage(s: State, x: Call): nat {
    if x !in s.conns || s.conns[x].phase.Entered? then 0
    else if HoldsSlot(s.conns[x]) then 1
    else 2
  }

  predicate SlotFreed(s: State, x: Call) {
    x in s.conns && s.conns[x].release.Freed?
  }

  lemma StageAdvances(s: State, capacity: nat, step: Step, x: Call)
    requires x in s.conns ==> Shape(s.conns[x])
    ensures var s' := Next(s, capacity, step);
      && Stage(s, x) <= Stage(s', x)
      && (GivesBack(s, s', x) <==> Stage(s, x) == 1 && Stage(s', x) == 2)
      && (SlotFreed(s', x) ==> SlotFreed(s, x) || Stage(s, x) == 1)
  {
    match step
    case BeginClose =>
    case PacketClosed(y) =>
    case EndClose =>
    case _ =>
      var conns := Next(s, capacity, step).conns;
      if step.x != x { assert conns == s.conns || conns == s.conns[step.x := conns[step.x]]; }
  }

  /** How often an allocation took a slot. */
  function Takes(capacity: nat, steps: seq<Step>, x: Call): nat {
    if steps == [] then 0
    else
      var k := |steps| - 1;
      Takes(capacity, steps[..k], x)
      + if Stage(Run(capacity, steps[..k]), x) == 0 && Stage(Run(capacity, steps), x) == 1 then 1 else 0
  }

  /**
   An allocation takes at most one slot and gives it back at most once.  It has taken one and not given it
   back exactly while it is counted among the holders, and a finished release has given it back.
   */
  lemma {:induction false} FreedOnce(capacity: nat, steps: seq<Step>, x: Call)
    ensures var s, takes, frees := Run(capacity, steps), Takes(capacity, steps, x), Frees(capacity, steps, x);
      && frees <= takes <= 1
      && (takes > frees <==> x in s.conns && HoldsSlot(s.conns[x]))
      && (Stage(s, x) == 0 ==> takes == 0)
      && (SlotFreed(s, x) ==> takes == 1 && frees == 1)
  {
    if steps == [] {
    } else {
      var k := |steps| - 1;
      FreedOnce(capacity, steps[..k], x);
      SlotsAreConserved(capacity, steps[..k]);
      StageAdvances(Run(capacity, steps[..k]), capacity, steps[k], x);
    }
  }

  // ---------------------------------------------------------------- the close ends

  /** A run from any state. */
  function After(s: State, capacity: nat, steps: seq<Step>): State {
    if steps == [] then s else Next(After(s, capacity, steps[..|steps| - 1]), capacity, steps[|steps| - 1])
  }

  lemma {:induction false} AfterIsRun(capacity: nat, a: seq<Step>, b: seq<Step>)
    ensures Run(capacity, a + b) == After(Run(capacity, a), capacity, b)
  {
    if b == [] {
      assert a + b == a;
    } else {
      LastApart(a, b);
      var init := a + b[..|b| - 1];
      assert (a + b)[..|a + b| - 1] == init;
      AfterIsRun(capacity, a, b[..|b| - 1]);
    }
  }

  lemma {:induction false} AfterAppend(s: State, capacity: nat, a: seq<Step>, b: seq<Step>)
    ensures After(s, capacity, a + b) == After(After(s, capacity, a), capacity, b)
  {
    if b == [] {
      assert a + b == a;
    } else {
      LastApart(a, b);
      var init := a + b[..|b| - 1];
      assert (a + b)[..|a + b| - 1] == init;
      AfterAppend(s, capacity, a, b[..|b| - 1]);
    }
  }

  lemma {:induction false} AfterKeepsInv(s: State, capacity: nat, steps: seq<Step>)
    requires Inv(s, capacity)
    ensures Inv(After(s, capacity, steps), capacity)
  {
    if steps == [] {
    } else {
      AfterKeepsInv(s, capacity, steps[..|steps| - 1]);
      StepKeepsInv(After(s, capacity, steps[..|steps| - 1]), capacity, steps[|steps| - 1]);
    }
  }

  lemma OneAfter(s: State, capacity: nat, step: Step)
    ensures After(s, capacity, [step]) == Next(s, capacity, step)
  {
    assert [step][..0] == [];
  }

  /** Nothing more is to be done for a call: it returned an error, or its packet is released. */
  predicate Settled(c: Conn) {
    c.phase.Gone? || (c.phase.Live? && c.release.Freed?)
  }

  function Unsettled(s: State): set<Call> {
    set x | x in s.conns && !Settled(s.conns[x])
  }

  /** How many steps a call is from being settled, once the relay is closing. */
  function Distance(c: Conn): nat {
    if Settled(c) then 0
    else match c.phase
      case Entered => 1
      case Holding => 1
      case Opened => 6
      case Refused =>
        (match c.release case Freed => 1 case Deleted => 2 case NotStarted => if c.socketOpen then 4 else 3)
      case Live => (match c.release case Freed => 0 case Deleted => 1 case NotStarted => if c.socketOpen then 3 else 2)
      case Gone => 0
  }

  /** The step that brings a call nearer to being settled. */
  function Advance(x: Call, c: Conn): Step {
    match c.phase
    case Entered => TakeSlot(x, false)
    case Holding => Open(x, false)
    case Opened => Publish(x)
    case _ =>
      match c.release
      case NotStarted => if c.socketOpen then CloseSocket(x) else StartRelease(x)
      case Deleted => FreeSlot(x)
      case Freed => Done(x)
  }

  lemma Advances(s: State, capacity: nat, x: Call)
    requires Inv(s, capacity) && s.closer.Closing? && x in s.conns && !Settled(s.conns[x])
    ensures var s' := Next(s, capacity, Advance(x, s.conns[x]));
      && s'.closer == s.closer && s'.conns.Keys == s.conns.Keys
      && (forall y | y in s.conns && y != x :: s'.conns[y] == s.conns[y])
      && Distance(s'.conns[x]) < Distance(s.conns[x])
  {
  }

  /** One call is settled, and the others stay as they are. */
  lemma {:induction false} SettlesOne(s: State, capacity: nat, x: Call) returns (steps: seq<Step>)
    requires Inv(s, capacity) && s.closer.Closing? && x in s.conns
    ensures var s' := After(s, capacity, steps);
      && s'.closer == s.closer && s'.conns.Keys == s.conns.Keys && Settled(s'.conns[x])
      && forall y | y in s.conns && y != x :: s'.conns[y] == s.conns[y]
    decreases Distance(s.conns[x])
  {
    if Settled(s.conns[x]) {
      steps := [];
    } else {
      var step := Advance(x, s.conns[x]);
      Advances(s, capacity, x);
      StepKeepsInv(s, capacity, step);
      var more := SettlesOne(Next(s, capacity, step), capacity, x);
      OneAfter(s, capacity, step);
      AfterAppend(s, capacity, [step], more);
      steps := [step] + more;
    }
  }

  lemma {:induction false} SettlesAll(s: State, capacity: nat) returns (steps: seq<Step>)
    requires Inv(s, capacity) && s.closer.Closing?
    ensures var s' := After(s, capacity, steps); s'.closer == s.closer && Unsettled(s') == {}
    decreases |Unsettled(s)|
  {
    if Unsettled(s) == {} {
      steps := [];
    } else {
      var x :| x in Unsettled(s);
      var first := SettlesOne(s, capacity, x);
      var s' := After(s, capacity, first);
      AfterKeepsInv(s, capacity, first);
      assert Unsettled(s') == Unsettled(s) - {x};
      var more := SettlesAll(s', capacity);
      AfterAppend(s, capacity, first, more);
      steps := first + more;
    }
  }

  /** The closer waits for its packets in turn. */
  lemma {:induction false} WaitsForAll(s: State, capacity: nat) returns (steps: seq<Step>)
    requires Inv(s, capacity) && s.closer.Closing? && Unsettled(s) == {}
    ensures After(s, capacity, steps).closer == Returned
    decreases if s.closer.Closing? then |s.closer.todo| else 0
  {
    if s.closer.todo == {} {
      forall x | x in s.conns ensures !InFlight(s.conns[x]) { assert x !in Unsettled(s); }
      assert Flying(s) == {};
      OneAfter(s, capacity, EndClose);
      steps := [EndClose];
    } else {
      var x :| x in s.closer.todo;
      assert x !in Unsettled(s) && At(s, x, Live);
      var s' := Next(s, capacity, PacketClosed(x));
      StepKeepsInv(s, capacity, PacketClosed(x));
      assert s' == s.(closer := Closing(s.closer.todo - {x})) && Unsettled(s') == Unsettled(s);
      var more := WaitsForAll(s', capacity);
      OneAfter(s, capacity, PacketClosed(x));
      AfterAppend(s, capacity, [PacketClosed(x)], more);
      steps := [PacketClosed(x)] + more;
    }
  }

  lemma CloseEnds(s: State, capacity: nat) returns (steps: seq<Step>)
    requires Inv(s, capacity)
    ensures After(s, capacity, steps).closer == Returned
  {
    if s.closer.Returned? {
      steps := [];
    } else {
      var begun: seq<Step> := if s.closer.Running? then [BeginClose] else [];
      OneAfter(s, capacity, BeginClose);
      var s1 := After(s, capacity, begun);
      AfterKeepsInv(s, capacity, begun);
      var settled := SettlesAll(s1, capacity);
      AfterKeepsInv(s1, capacity, settled);
      var waited := WaitsForAll(After(s1, capacity, settled), capacity);
      AfterAppend(s, capacity, begun, settled);
      AfterAppend(s, capacity, begun + settled, waited);
      steps := begun + settled + waited;
    }
  }

  /** The close of the relay never hangs: from every reachable state some continuation lets it return. */
  lemma CloseCanReturn(capacity: nat, steps: seq<Step>)
    ensures exists more :: Run(capacity, steps + more).closer == Returned
  {
    SlotsAreConserved(capacity, steps);
    var more := CloseEnds(Run(capacity, steps), capacity);
    AfterIsRun(capacity, steps, more);
  }

  /** A call that is made on an open relay with a free slot, a good port and a working socket gets its packet. */
  lemma AllocationSucceeds(capacity: nat, steps: seq<Step>, x: Call)
    requires var s := Run(capacity, steps); s.closer == Running && x !in s.conns && s.used < capacity
    ensures var s := Run(capacity, steps);
      var s' := Run(capacity, steps + [Enter(x), TakeSlot(x, true), Open(x, true), Publish(x)]);
      s'.conns == s.conns[x := Conn(Live, true, NotStarted)] && x in s'.packets && s'.used == s.used + 1
  {
    var s := Run(capacity, steps);
    var s1 := Next(s, capacity, Enter(x));
    var s2 := Next(s1, capacity, TakeSlot(x, true));
    var s3 := Next(s2, capacity, Open(x, true));
    FourSteps(s, capacity, [Enter(x), TakeSlot(x, true), Open(x, true), Publish(x)]);
    AfterIsRun(capacity, steps, [Enter(x), TakeSlot(x, true), Open(x, true), Publish(x)]);
    var s4 := Next(s3, capacity, Publish(x));
    assert s4.conns == s.conns[x := Conn(Live, true, NotStarted)];
  }

  lemma FourSteps(s: State, capacity: nat, e: seq<Step>)
    requires |e| == 4
    ensures After(s, capacity, e)
         == Next(Next(Next(Next(s, capacity, e[0]), capacity, e[1]), capacity, e[2]), capacity, e[3])
  {
    OneAfter(s, capacity, e[0]);
    AfterAppend(s, capacity, [e[0]], [e[1]]);
    OneAfter(After(s, capacity, [e[0]]), capacity, e[1]);
    AfterAppend(s, capacity, [e[0]] + [e[1]], [e[2]]);
    OneAfter(After(s, capacity, [e[0]] + [e[1]]), capacity, e[2]);
    AfterAppend(s, capacity, [e[0]] + [e[1]] + [e[2]], [e[3]]);
    OneAfter(After(s, capacity, [e[0]] + [e[1]] + [e[2]]), capacity, e[3]);
    assert e == [e[0]] + [e[1]] + [e[2]] + [e[3]];
  }

  /** Once the relay is closing no call becomes live any more. */
  lemma NothingNewWhileClosing(s: State, capacity: nat, step: Step, x: Call)
    requires s.closer != Running && !At(s, x, Live)
    ensures !At(Next(s, capacity, step), x, Live) && Next(s, capacity, step).closer != Running
  {
  }

  // ---------------------------------------------------------------- the object

  /** The relay as an object: each method is one locked section or one channel operation of the program. */
  class GuardedRelay {
    const capacity: nat
    var conns: map<Call, Conn>
    var packets: set<Call>
    var used: nat
    var pending: nat
    var closer: Closer

    ghost function View(): State reads this {
      State(conns, packets, used, pending, closer)
    }

    ghost predicate Valid() reads this {
      Inv(View(), capacity)
    }

    constructor (capacity: nat)
      ensures Valid() && this.capacity == capacity && View() == EMPTY
    {
      this.capacity, conns, packets, used, pending, closer := capacity, map[], {}, 0, 0, Running;
      new;
      assert Holders(View()) == {} && Flying(View()) == {};
    }

    /** A closed relay admits nobody. */
    method Admit(x: Call) returns (ok: bool)
      requires Valid() && x !in conns
      modifies this
      ensures Valid() && View() == Next(old(View()), capacity, Enter(x))
      ensures ok <==> old(closer) == Running
    {
      StepKeepsInv(View(), capacity, Enter(x));
      ok := closer == Running;
      if ok {
        conns, pending := conns[x := Conn(Entered, false, NotStarted)], pending + 1;
      } else {
        conns := conns[x := Conn(Gone, false, NotStarted)];
      }
    }

    /** The requested port is checked before a slot is tried. */
    method AcquireSlot(x: Call, portOk: bool) returns (ok: bool)
      requires Valid() && At(View(), x, Entered)
      modifies this
      ensures Valid() && View() == Next(old(View()), capacity, TakeSlot(x, portOk))
      ensures ok <==> portOk && old(used) < capacity
    {
      StepKeepsInv(View(), capacity, TakeSlot(x, portOk));
      HolderCounted(View(), capacity, x);
      ok := portOk && used < capacity;
      if ok {
        conns, used := conns[x := Conn(Holding, false, NotStarted)], used + 1;
      } else {
        conns, pending := conns[x := Conn(Gone, false, NotStarted)], pending - 1;
      }
    }

    /** A socket that cannot be opened gives the slot back at once. */
    method OpenSocket(x: Call, ok: bool)
      requires Valid() && At(View(), x, Holding)
      modifies this
      ensures Valid() && View() == Next(old(View()), capacity, Open(x, ok))
    {
      StepKeepsInv(View(), capacity, Open(x, ok));
      HolderCounted(View(), capacity, x);
      if ok {
        conns := conns[x := Conn(Opened, true, NotStarted)];
      } else {
        conns, used, pending := conns[x := Conn(Gone, false, NotStarted)], used - 1, pending - 1;
      }
    }

    /** The second look at the closed flag. */
    method PublishPacket(x: Call) returns (ok: bool)
      requires Valid() && At(View(), x, Opened)
      modifies this
      ensures Valid() && View() == Next(old(View()), capacity, Publish(x))
      ensures ok <==> x in packets
      ensures ok <==> old(closer) == Running
    {
      StepKeepsInv(View(), capacity, Publish(x));
      HolderCounted(View(), capacity, x);
      ok := closer == Running;
      if ok {
        conns, packets, pending := conns[x := Conn(Live, true, NotStarted)], packets + {x}, pending - 1;
      } else {
        conns := conns[x := Conn(Refused, true, NotStarted)];
      }
    }

    /** The socket closes, and the first closer starts the release. */
    method ClosePacket(x: Call) returns (releasing: bool)
      requires Valid() && (At(View(), x, Live) || At(View(), x, Refused))
      modifies this
      ensures Valid() && View() == Next(Next(old(View()), capacity, CloseSocket(x)), capacity, StartRelease(x))
      ensures !conns[x].socketOpen && x !in packets
      ensures releasing <==> old(conns[x].release) == NotStarted
    {
      StepKeepsInv(View(), capacity, CloseSocket(x));
      StepKeepsInv(Next(View(), capacity, CloseSocket(x)), capacity, StartRelease(x));
      releasing := conns[x].release == NotStarted;
      conns := conns[x := conns[x].(socketOpen := false)];
      if releasing {
        conns, packets := conns[x := conns[x].(release := Deleted)], packets - {x};
      }
    }

    /** The slot goes back. */
    method ReleaseSlot(x: Call)
      requires Valid() && x in conns && conns[x].release == Deleted
      modifies this
      ensures Valid() && View() == Next(old(View()), capacity, FreeSlot(x))
      ensures used == old(used) - 1
    {
      StepKeepsInv(View(), capacity, FreeSlot(x));
      HolderCounted(View(), capacity, x);
      conns, used := conns[x := conns[x].(release := Freed)], used - 1;
    }

    /** The flag is set and the map is copied in one section. */
    method BeginClosing()
      requires Valid() && closer == Running
      modifies this
      ensures Valid() && View() == Next(old(View()), capacity, BeginClose)
    {
      StepKeepsInv(View(), capacity, BeginClose);
      closer := Closing(packets);
    }

    /** The closer's wait on one packet ends once somebody has released it. */
    method PacketReleased(x: Call)
      requires Valid() && closer.Closing? && x in closer.todo && x in conns && conns[x].release == Freed
      modifies this
      ensures Valid() && View() == Next(old(View()), capacity, PacketClosed(x))
    {
      StepKeepsInv(View(), capacity, PacketClosed(x));
      closer := Closing(closer.todo - {x});
    }

    /** A refused allocation has closed its own packet and returns. */
    method ReturnRefused(x: Call)
      requires Valid() && At(View(), x, Refused) && conns[x].release == Freed
      modifies this
      ensures Valid() && View() == Next(old(View()), capacity, Done(x))
    {
      StepKeepsInv(View(), capacity, Done(x));
      HolderCounted(View(), capacity, x);
      conns, pending := conns[x := conns[x].(phase := Gone)], pending - 1;
    }

    /** The close returns when every packet it found is released and no allocation is under way. */
    method FinishClosing()
      requires Valid() && closer == Closing({}) && pending == 0
      modifies this
      ensures Valid() && View() == Next(old(View()), capacity, EndClose)
      ensures closer == Returned
      ensures packets == {} && forall x | x in conns :: !conns[x].socketOpen
    {
      StepKeepsInv(View(), capacity, EndClose);
      closer := Returned;
      forall x | x in conns ensures !conns[x].socketOpen {
        assert x !in Flying(View()) && x !in packets;
      }
    }
  }
}
