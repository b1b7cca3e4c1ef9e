/**
 The host's queue of one viewer (core/desktop/security.go) and the two queues in a row: what the host's writer
 sends is what the client's session emits (core/desktop/hub.go, app/engine/video.go).
 */
module Gates {
  import opened Prelude
  import opened Video

  // ---------------------------------------------------------------- the host's queue, one per viewer

  /** The envelope's first byte says whether the encoder announced a keyframe. */
  datatype Packet = Packet(nr: nat, key: bool)

  datatype Outbox = Outbox(queue: seq<Packet>, needsKey: bool)

  function Enqueued(o: Outbox, p: Packet): Outbox {
    if o.needsKey && !p.key then o
    else if |o.queue| < CAPACITY then Outbox(o.queue + [p], false)
    else Outbox([], true)
  }

  /** Overflow discards the new packet with the queue, keyframe or not; the writer may win some of the queue. */
  function Overflows(o: Outbox, p: Packet): bool {
    !(o.needsKey && !p.key) && |o.queue| >= CAPACITY
  }

  class Client {
    var sendChan: seq<Packet>
    var needsKey: bool
    var done: bool

    function View(): Outbox
      reads this
    {
      Outbox(sendChan, needsKey)
    }

    constructor ()
      ensures View() == Outbox([], true) && !done
    {
      sendChan, needsKey, done := [], true, false;
    }

    /** `taken` says which queued packets the writer wins while the queue is drained. */
    method EnqueueFrame(p: Packet, taken: seq<bool>) returns (askKey: bool, raced: seq<Packet>)
      requires |taken| == |sendChan| <= CAPACITY
      modifies this
      ensures done == old(done) && |sendChan| <= CAPACITY
      ensures View() == if old(done) then old(View()) else Enqueued(old(View()), p)
      ensures askKey == (!old(done) && Overflows(old(View()), p))
      ensures raced == if askKey then Won(old(sendChan), taken) else []
    {
      askKey, raced := false, [];
      if done {
        return;
      }
      if needsKey && !p.key {
        return;
      }
      if |sendChan| < CAPACITY {
        sendChan := sendChan + [p];
        needsKey := false;
        return;
      }
      var left := taken;
      while sendChan != []
        invariant |left| == |sendChan| && done == old(done)
        invariant raced + Won(sendChan, left) == Won(old(sendChan), taken)
        decreases |sendChan|
      {
        if left[0] {
          raced := raced + [sendChan[0]];
        }
        sendChan, left := sendChan[1..], left[1..];
      }
      needsKey := true;
      askKey := true;
    }
  }

  function Won(q: seq<Packet>, taken: seq<bool>): seq<Packet>
    requires |q| == |taken|
  {
    if q == [] then [] else (if taken[0] then [q[0]] else []) + Won(q[1..], taken[1..])
  }

  function Written(queue: seq<Packet>, raced: bool): (w: seq<Shown>)
    ensures |w| == |queue| && forall i | 0 <= i < |w| :: w[i] == Shown(queue[i].nr, queue[i].key, raced)
  {
    seq(|queue|, i requires 0 <= i < |queue| => Shown(queue[i].nr, queue[i].key, raced))
  }

  /** A viewer of the host: `count` frames offered so far, `sent` those its writer took. */
  datatype Line = Line(o: Outbox, count: nat, sent: seq<Shown>)

  datatype Move = Offer(key: bool, taken: seq<bool>) | Write

  function Moved(l: Line, m: Move): Line {
    match m
    case Offer(key, taken) =>
      if |taken| != |l.o.queue| then l
      else
        var p := Packet(l.count, key);
        Line(Enqueued(l.o, p), l.count + 1,
             if Overflows(l.o, p) then l.sent + Written(Won(l.o.queue, taken), true) else l.sent)
    case Write =>
      if l.o.queue == [] then l
      else Line(l.o.(queue := l.o.queue[1..]), l.count, l.sent + Written([l.o.queue[0]], false))
  }

  function Sent(moves: seq<Move>): Line {
    if moves == [] then Line(Outbox([], true), 0, [])
    else Moved(Sent(moves[..|moves| - 1]), moves[|moves| - 1])
  }

  ghost predicate InOrder(l: Line) {
    Ready(l.sent + Written(l.o.queue, false), l.o.needsKey, l.count)
  }

  /** The frames run on without a gap up to the last one offered, unless the gate waits for a keyframe. */
  ghost predicate Ready(w: seq<Shown>, needsKey: bool, count: nat) {
    Contiguous(w) && (!needsKey ==> w != [] && w[|w| - 1].nr + 1 == count)
  }

  lemma ContiguousPart(w: seq<Shown>, more: seq<Shown>, raced: seq<Shown>)
    requires Contiguous(w + more) && forall x | x in raced :: x.raced
    ensures Contiguous(w + raced)
  {
    var a, b := w + more, w + raced;
    forall j | 0 <= j < |b| ensures b[j].key || b[j].raced || (j > 0 && b[j - 1].nr + 1 == b[j].nr) {
      if j < |w| {
        assert b[j] == a[j] && (j > 0 ==> b[j - 1] == a[j - 1]);
      } else {
        assert b[j] in raced;
      }
    }
  }

  lemma OfferKeepsOrder(l: Line, p: Packet)
    requires InOrder(l) && p.nr == l.count && (p.key || !l.o.needsKey) && |l.o.queue| < CAPACITY
    ensures InOrder(Line(Outbox(l.o.queue + [p], false), l.count + 1, l.sent))
  {
    var w, x := l.sent + Written(l.o.queue, false), Shown(p.nr, p.key, false);
    ContiguousMore(w, x);
    assert Written(l.o.queue + [p], false) == Written(l.o.queue, false) + [x];
    assert l.sent + (Written(l.o.queue, false) + [x]) == w + [x];
  }

  lemma WrittenHead(sent: seq<Shown>, queue: seq<Packet>)
    requires queue != []
    ensures sent + Written(queue, false) == sent + Written([queue[0]], false) + Written(queue[1..], false)
  {
    var x, rest := Written([queue[0]], false), Written(queue[1..], false);
    assert Written(queue, false) == x + rest;
    assert sent + (x + rest) == sent + x + rest;
  }

  /** Writing moves a packet within what is sent or queued. */
  lemma WriteKeepsOrder(l: Line)
    requires InOrder(l) && l.o.queue != []
    ensures InOrder(Moved(l, Write))
  {
    WrittenHead(l.sent, l.o.queue);
  }

  lemma OverflowKeepsOrder(l: Line, won: seq<Shown>, count: nat)
    requires InOrder(l) && forall x | x in won :: x.raced
    ensures InOrder(Line(Outbox([], true), count, l.sent + won))
  {
    ContiguousPart(l.sent, Written(l.o.queue, false), won);
    assert l.sent + won + Written([], false) == l.sent + won;
  }

  lemma MoveKeepsOrder(l: Line, m: Move)
    requires InOrder(l)
    ensures InOrder(Moved(l, m))
  {
    if m.Write? {
      if l.o.queue != [] { WriteKeepsOrder(l); }
    } else if |m.taken| == |l.o.queue| {
      var p := Packet(l.count, m.key);
      if Overflows(l.o, p) {
        OverflowKeepsOrder(l, Written(Won(l.o.queue, m.taken), true), l.count + 1);
      } else if p.key || !l.o.needsKey {
        OfferKeepsOrder(l, p);
      }
    }
  }

  /** The host's queue gives the same guarantee for the keyframes the encoder announced. */
  lemma {:induction false} HostStaysContiguous(moves: seq<Move>)
    ensures InOrder(Sent(moves)) && Contiguous(Sent(moves).sent)
  {
    if moves == [] {
    } else {
      HostStaysContiguous(moves[..|moves| - 1]);
      MoveKeepsOrder(Sent(moves[..|moves| - 1]), moves[|moves| - 1]);
    }
    var l := Sent(moves);
    ContiguousPart(l.sent, Written(l.o.queue, false), []);
    assert l.sent + [] == l.sent;
  }

  /** An offer reaches the queue's end: it is a keyframe, or the gate is open. */
  predicate Passes(l: Line, m: Move) {
    m.Offer? && |m.taken| == |l.o.queue| && (m.key || !l.o.needsKey)
  }

  /**
   What an offer does: it is queued last and the gate is open, or it and every queued packet that the writer does not
   win are lost, the gate is closed, and a keyframe is asked for.  The encoder is asked exactly then, and it happens
   exactly to an offer that passes the gate of a full queue.
   */
  lemma OfferedExactly(l: Line, m: Move)
    requires Passes(l, m)
    ensures var l', p := Moved(l, m), Packet(l.count, m.key);
      && (Overflows(l.o, p) <==> |l.o.queue| >= CAPACITY)
      && (Overflows(l.o, p) <==> l'.o.needsKey)
      && (if Overflows(l.o, p) then l'.o.queue == [] && l'.sent == l.sent + Written(Won(l.o.queue, m.taken), true)
          else l'.o.queue == l.o.queue + [p] && l'.sent == l.sent)
  {
  }

  /** The gate closes only by asking for a keyframe, and nothing but a queued keyframe opens it. */
  lemma GateMoves(l: Line, m: Move)
    ensures !l.o.needsKey && Moved(l, m).o.needsKey ==> m.Offer? && Overflows(l.o, Packet(l.count, m.key))
    ensures l.o.needsKey && !Moved(l, m).o.needsKey ==>
      m.Offer? && m.key && Moved(l, m).o.queue == l.o.queue + [Packet(l.count, true)]
  {
  }

  /** A keyframe is asked for by move i. */
  predicate AsksAt(moves: seq<Move>, i: nat)
    requires i < |moves|
  {
    var l := Sent(moves[..i]);
    && Passes(l, moves[i]) && Overflows(l.o, Packet(l.count, moves[i].key))
  }

  /** No move from i on puts a packet into the queue. */
  ghost predicate QueuesNothing(moves: seq<Move>, i: nat) {
    forall j: nat | i <= j < |moves| :: |Sent(moves[..j + 1]).o.queue| <= |Sent(moves[..j]).o.queue|
  }

  /** Nothing was ever queued, or a keyframe was asked for and nothing has been queued since. */
  ghost predicate Awaited(moves: seq<Move>) {
    QueuesNothing(moves, 0) || exists i: nat :: i < |moves| && AsksAt(moves, i) && QueuesNothing(moves, i + 1)
  }

  /**
   Over every run: a viewer that waits for a keyframe either never had a packet queued, or a keyframe was asked for
   when it last lost its queue, and nothing has been queued for it since.
   */
  lemma {:induction false} WaitersAreAskedFor(moves: seq<Move>)
    requires Sent(moves).o.needsKey
    ensures Awaited(moves)
  {
    if moves == [] {
    } else {
      var k := |moves| - 1;
      var l, m := Sent(moves[..k]), moves[k];
      if Passes(l, m) && Overflows(l.o, Packet(l.count, m.key)) {
        assert AsksAt(moves, k) && QueuesNothing(moves, k + 1);
      } else {
        QuietMove(l, m);
        WaitersAreAskedFor(moves[..k]);
        StaysAwaited(moves);
      }
    }
  }

  lemma StaysAwaited(moves: seq<Move>)
    requires moves != [] && Awaited(moves[..|moves| - 1])
    requires |Sent(moves).o.queue| <= |Sent(moves[..|moves| - 1]).o.queue|
    ensures Awaited(moves)
  {
    var before := moves[..|moves| - 1];
    if QueuesNothing(before, 0) {
      QuietLonger(moves, 0);
    } else {
      var i: nat :| i < |before| && AsksAt(before, i) && QueuesNothing(before, i + 1);
      assert before[..i] == moves[..i];
      assert AsksAt(moves, i);
      QuietLonger(moves, i + 1);
    }
  }

  /** A move that leaves the gate closed, without a loss, queues nothing. */
  lemma QuietMove(l: Line, m: Move)
    requires Moved(l, m).o.needsKey && !(Passes(l, m) && Overflows(l.o, Packet(l.count, m.key)))
    ensures l.o.needsKey && |Moved(l, m).o.queue| <= |l.o.queue|
  {
  }

  lemma QuietLonger(moves: seq<Move>, i: nat)
    requires moves != [] && QueuesNothing(moves[..|moves| - 1], i)
    requires |Sent(moves).o.queue| <= |Sent(moves[..|moves| - 1]).o.queue|
    ensures QueuesNothing(moves, i)
  {
    var k := |moves| - 1;
    forall j: nat | i <= j < |moves| ensures |Sent(moves[..j + 1]).o.queue| <= |Sent(moves[..j]).o.queue| {
      if j < k {
        assert moves[..k][..j] == moves[..j] && moves[..k][..j + 1] == moves[..j + 1];
      } else {
        assert moves[..j + 1] == moves;
      }
    }
  }

  // ---------------------------------------------------------------- two gates in a row

  /** `offered` are the access units; each stage lists what it passed on by position in its own input. */
  ghost predicate PassedBy(units: seq<Bytes>, out: seq<nat>, key: Bytes -> bool) {
    && (forall j | 0 <= j < |out| :: out[j] < |units|)
    && (forall j | 0 <= j < |out| :: key(units[out[j]]) || (j > 0 && out[j - 1] + 1 == out[j]))
  }

  function Picked<T>(items: seq<T>, out: seq<nat>): (r: seq<T>)
    requires forall j | 0 <= j < |out| :: out[j] < |items|
    ensures |r| == |out| && forall j | 0 <= j < |out| :: r[j] == items[out[j]]
  {
    seq(|out|, j requires 0 <= j < |out| => items[out[j]])
  }

  /**
   The host's gate followed by the client's gate over a lossless link is one gate on what was offered to the
   host, as long as no access unit is announced as a keyframe on the strength of parameter sets alone.
   */
  lemma GatesCompose(offered: seq<Bytes>, host: seq<nat>, client: seq<nat>)
    requires PassedBy(offered, host, HostKey)
    requires PassedBy(Picked(offered, host), client, ClientKey)
    requires forall d | d in offered :: !ParameterSetsOnly(d)
    ensures PassedBy(offered, Picked(host, client), ClientKey)
  {
    var out := Picked(host, client);
    forall j | 0 <= j < |out| ensures ClientKey(offered[out[j]]) || (j > 0 && out[j - 1] + 1 == out[j]) {
      var d, k := offered[out[j]], client[j];
      assert d == Picked(offered, host)[k] == offered[host[k]];
      assert d in offered;
      KeyTestsCompared(d);
      if !ClientKey(d) {
        assert client[j - 1] + 1 == client[j];
        assert !HostKey(d);
        assert host[k - 1] + 1 == host[k];
      }
    }
  }

  lemma NumbersPassed(units: seq<Bytes>, w: seq<Shown>, key: Bytes -> bool)
    requires Contiguous(w)
    requires forall x | x in w :: !x.raced && x.nr < |units| && x.key == key(units[x.nr])
    ensures forall j | 0 <= j < |w| :: w[j].nr < |units|
    ensures PassedBy(units, Numbers(w), key)
  {
    forall j | 0 <= j < |w| ensures w[j].nr < |units| && w[j].key == key(units[w[j].nr]) && !w[j].raced {
      assert w[j] in w;
    }
  }

  function Numbers(w: seq<Shown>): (r: seq<nat>)
    ensures |r| == |w| && forall j | 0 <= j < |w| :: r[j] == w[j].nr
  {
    seq(|w|, j requires 0 <= j < |w| => w[j].nr)
  }

  /**
   Whole runs of both ends: if the link carries what the host's writer took to one unharmed session of the
   client, undisturbed by races at either end, then what that session shows are runs of the access units
   offered to the host, each from a keyframe on and without a gap.
   */
  lemma TwoGatesAreOne(offered: seq<Bytes>, moves: seq<Move>, events: seq<Event>, s: string)
    requires forall d | d in offered :: !ParameterSetsOnly(d)
    requires var sent := Sent(moves).sent; var v := Run(START, events); var shown := Of(v.shown, s);
      && Unharmed(events, s)
      && (forall x | x in sent :: !x.raced && x.nr < |offered| && x.key == HostKey(offered[x.nr]))
      && (forall x | x in shown :: !x.raced && x.nr < |sent|)
      && (forall x | x in shown && x.nr < |sent| && sent[x.nr].nr < |offered| ::
            x.key == ClientKey(offered[sent[x.nr].nr]))
    ensures var host, client := Numbers(Sent(moves).sent), Numbers(Of(Run(START, events).shown, s));
      && (forall j | 0 <= j < |client| :: client[j] < |host|)
      && PassedBy(offered, Picked(host, client), ClientKey)
  {
    var sent, shown := Sent(moves).sent, Of(Run(START, events).shown, s);
    HostStaysContiguous(moves);
    SessionsStayContiguous(events, s);
    NumbersPassed(offered, sent, HostKey);
    var host := Numbers(sent);
    var units := Picked(offered, host);
    forall x | x in shown ensures x.nr < |units| && x.key == ClientKey(units[x.nr]) {
      assert sent[x.nr] in sent;
    }
    NumbersPassed(units, shown, ClientKey);
    GatesCompose(offered, host, Numbers(shown));
  }

  // ---------------------------------------------------------------- undisturbed runs of both ends

  function Losing(n: nat): (l: seq<bool>)
    ensures |l| == n && forall i | 0 <= i < n :: !l[i]
  {
    seq(n, _ => false)
  }

  datatype Turn = OfferNext | WriteNext

  ghost function HostMove(offered: seq<Bytes>, l: Line, t: Turn): seq<Move> {
    if t.WriteNext? then [Write]
    else if l.count < |offered| then [Offer(HostKey(offered[l.count]), Losing(|l.o.queue|))]
    else []
  }

  /** The host's end offers the units in turn, and its writer takes packets between the offers but never during one. */
  ghost function HostMoves(offered: seq<Bytes>, turns: seq<Turn>): seq<Move> {
    if turns == [] then []
    else
      var moves := HostMoves(offered, turns[..|turns| - 1]);
      moves + HostMove(offered, Sent(moves), turns[|turns| - 1])
  }

  ghost function HostLine(offered: seq<Bytes>, turns: seq<Turn>): Line {
    Sent(HostMoves(offered, turns))
  }

  ghost function NextLine(offered: seq<Bytes>, l: Line, t: Turn): Line {
    var m := HostMove(offered, l, t);
    if m == [] then l else Moved(l, m[0])
  }

  lemma HostGrows(offered: seq<Bytes>, turns: seq<Turn>, t: Turn)
    ensures HostLine(offered, turns + [t]) == NextLine(offered, HostLine(offered, turns), t)
  {
    var all, moves := turns + [t], HostMoves(offered, turns);
    assert all[..|all| - 1] == turns;
    var m := HostMove(offered, Sent(moves), t);
    if m == [] { assert moves + m == moves; } else { assert (moves + m)[..|moves|] == moves; }
  }

  /** An overflow loses the queue and the packet after it: what the writer takes next is five places on. */
  ghost predicate SpacedAt(w: seq<Shown>, offered: seq<Bytes>, j: nat)
    requires j < |w|
  {
    && !w[j].raced && w[j].nr < |offered| && w[j].key == HostKey(offered[w[j].nr])
    && if j == 0 then w[j].key
       else w[j - 1].nr + 1 == w[j].nr || (w[j].key && w[j - 1].nr + 5 <= w[j].nr)
  }

  ghost predicate Spaced(w: seq<Shown>, offered: seq<Bytes>) {
    forall j: nat | j < |w| :: SpacedAt(w, offered, j)
  }

  lemma SpacedMore(w: seq<Shown>, x: Shown, offered: seq<Bytes>)
    requires Spaced(w, offered) && SpacedAt(w + [x], offered, |w|)
    ensures Spaced(w + [x], offered)
  {
    forall j: nat | j < |w| ensures SpacedAt(w + [x], offered, j) { assert SpacedAt(w, offered, j); }
  }

  lemma SpacedPart(w: seq<Shown>, more: seq<Shown>, offered: seq<Bytes>)
    requires Spaced(w + more, offered)
    ensures Spaced(w, offered)
  {
    forall j: nat | j < |w| ensures SpacedAt(w, offered, j) { assert SpacedAt(w + more, offered, j); }
  }

  lemma {:induction false} SpacedRises(w: seq<Shown>, offered: seq<Bytes>, i: nat, j: nat)
    requires Spaced(w, offered) && i <= j < |w|
    ensures w[i].nr + (j - i) <= w[j].nr
  {
    if i == j {
    } else {
      assert SpacedAt(w, offered, j);
      SpacedRises(w, offered, i, j - 1);
    }
  }

  ghost predicate Calm(l: Line, offered: seq<Bytes>) {
    var w := l.sent + Written(l.o.queue, false);
    && Spaced(w, offered) && |l.o.queue| <= CAPACITY && l.count <= |offered|
    && if l.o.needsKey then l.o.queue == [] && (w != [] ==> w[|w| - 1].nr + 5 <= l.count)
       else w != [] && w[|w| - 1].nr + 1 == l.count
  }

  lemma WriteKeepsCalm(l: Line, offered: seq<Bytes>)
    requires Calm(l, offered) && l.o.queue != []
    ensures Calm(Moved(l, Write), offered)
  {
    WrittenHead(l.sent, l.o.queue);
  }

  lemma {:induction false} LosingWinsNothing(q: seq<Packet>)
    ensures Won(q, Losing(|q|)) == []
  {
    if q == [] {
    } else {
      assert Losing(|q|)[1..] == Losing(|q| - 1);
      LosingWinsNothing(q[1..]);
    }
  }

  lemma OverflowKeepsCalm(l: Line, offered: seq<Bytes>)
    requires Calm(l, offered) && !l.o.needsKey && |l.o.queue| == CAPACITY && l.count < |offered|
    ensures Calm(Line(Outbox([], true), l.count + 1, l.sent), offered)
  {
    var q := Written(l.o.queue, false);
    var w, n := l.sent + q, |l.sent|;
    SpacedPart(l.sent, q, offered);
    assert l.sent + Written([], false) == l.sent;
    if n > 0 {
      SpacedRises(w, offered, n - 1, n + 2);
      assert w[n - 1] == l.sent[n - 1];
    }
  }

  lemma OfferKeepsCalm(l: Line, offered: seq<Bytes>)
    requires Calm(l, offered) && l.count < |offered|
    ensures Calm(Moved(l, Offer(HostKey(offered[l.count]), Losing(|l.o.queue|))), offered)
  {
    var p := Packet(l.count, HostKey(offered[l.count]));
    var q, x := Written(l.o.queue, false), Shown(p.nr, p.key, false);
    if Overflows(l.o, p) {
      LosingWinsNothing(l.o.queue);
      assert l.sent + Written([], true) == l.sent;
      OverflowKeepsCalm(l, offered);
    } else if p.key || !l.o.needsKey {
      assert Written(l.o.queue + [p], false) == q + [x];
      assert l.sent + (q + [x]) == l.sent + q + [x];
      SpacedMore(l.sent + q, x, offered);
    }
  }

  lemma {:induction false} HostStaysCalm(offered: seq<Bytes>, turns: seq<Turn>)
    ensures Calm(HostLine(offered, turns), offered)
  {
    if turns == [] {
    } else {
      var before, t := turns[..|turns| - 1], turns[|turns| - 1];
      var l := HostLine(offered, before);
      HostStaysCalm(offered, before);
      assert turns == before + [t];
      HostGrows(offered, before, t);
      if t.WriteNext? {
        if l.o.queue != [] { WriteKeepsCalm(l, offered); }
      } else if l.count < |offered| {
        OfferKeepsCalm(l, offered);
      }
    }
  }

  datatype ClientTurn = Join | Feed(now: int) | Show | Elsewhere(ev: Event)

  ghost function ClientEvent(units: seq<Bytes>, s: string, v: Viewer, t: ClientTurn): seq<Event> {
    match t
    case Join => [Open(s)]
    case Show => [Deliver]
    case Feed(now) =>
      if s in v.count && v.count[s] < |units| then [Emit(s, units[v.count[s]], now, Losing(|v.g.frames|))] else []
    case Elsewhere(ev) =>
      if ev.Deliver? || ev.session == s || (ev.Emit? && ev.taken != Losing(|v.g.frames|)) then [] else [ev]
  }

  /**
   The client's end emits the units for one session in turn, among any other sessions that open, close and emit
   what they like; the consumer takes frames between the emissions but never during one.
   */
  ghost function ClientEvents(units: seq<Bytes>, s: string, turns: seq<ClientTurn>): seq<Event> {
    if turns == [] then []
    else
      var events := ClientEvents(units, s, turns[..|turns| - 1]);
      events + ClientEvent(units, s, Run(START, events), turns[|turns| - 1])
  }

  ghost function ClientRun(units: seq<Bytes>, s: string, turns: seq<ClientTurn>): Viewer {
    Run(START, ClientEvents(units, s, turns))
  }

  ghost function NextViewer(units: seq<Bytes>, s: string, v: Viewer, t: ClientTurn): Viewer {
    var m := ClientEvent(units, s, v, t);
    if m == [] then v else Step(v, m[0])
  }

  lemma ClientGrows(units: seq<Bytes>, s: string, turns: seq<ClientTurn>, t: ClientTurn)
    ensures ClientRun(units, s, turns + [t]) == NextViewer(units, s, ClientRun(units, s, turns), t)
  {
    var all, events := turns + [t], ClientEvents(units, s, turns);
    assert all[..|all| - 1] == turns;
    var m := ClientEvent(units, s, Run(START, events), t);
    if m == [] { assert events + m == events; } else { assert (events + m)[..|events|] == events; }
  }

  /** What the session has queued and shown are the units it was fed. */
  ghost predicate Fed(v: Viewer, units: seq<Bytes>, s: string) {
    && (s in v.count ==> v.count[s] <= |units|)
    && (forall f | f in v.g.frames && f.session == s :: f.nr < |units| && f.data == units[f.nr])
    && (forall x | x in v.shown && x.0 == s ::
          !x.1.raced && x.1.nr < |units| && x.1.key == ClientKey(units[x.1.nr]))
  }

  lemma {:induction false} LosingWins(q: seq<Frame>)
    ensures Split(q, Losing(|q|), true) == []
  {
    if q == [] {
    } else {
      assert Losing(|q|)[1..] == Losing(|q| - 1);
      LosingWins(q[1..]);
    }
  }

  lemma EmissionKeepsFed(v: Viewer, units: seq<Bytes>, s: string, ev: Event)
    requires Fed(v, units, s) && ev.Emit? && ev.taken == Losing(|v.g.frames|)
    requires ev.session == s && s in v.count ==> v.count[s] < |units| && ev.data == units[v.count[s]]
    ensures Fed(Step(v, ev), units, s)
  {
    LosingWins(v.g.frames);
    assert v.shown + Tag([], true) == v.shown;
  }

  lemma StepKeepsFed(v: Viewer, units: seq<Bytes>, s: string, t: ClientTurn)
    requires Fed(v, units, s)
    ensures Fed(NextViewer(units, s, v, t), units, s)
  {
    var m := ClientEvent(units, s, v, t);
    if m != [] {
      match m[0]
      case Emit(_, _, _, _) => EmissionKeepsFed(v, units, s, m[0]);
      case Deliver => if v.g.frames != [] { assert v.g.frames[0] in v.g.frames; }
      case _ =>
    }
  }

  lemma {:induction false} ClientStaysFed(units: seq<Bytes>, s: string, turns: seq<ClientTurn>)
    ensures Fed(ClientRun(units, s, turns), units, s)
  {
    if turns == [] {
    } else {
      var before, t := turns[..|turns| - 1], turns[|turns| - 1];
      ClientStaysFed(units, s, before);
      assert turns == before + [t];
      ClientGrows(units, s, before, t);
      StepKeepsFed(ClientRun(units, s, before), units, s, t);
    }
  }

  lemma TurnIsHarmless(units: seq<Bytes>, s: string, v: Viewer, t: ClientTurn)
    requires forall d | d in units :: |d| <= MAX_FRAME
    ensures Unharmed(ClientEvent(units, s, v, t), s)
  {
    if t.Feed? && s in v.count && v.count[s] < |units| { assert units[v.count[s]] in units; }
  }

  lemma {:induction false} ClientStaysUnharmed(units: seq<Bytes>, s: string, turns: seq<ClientTurn>)
    requires forall d | d in units :: |d| <= MAX_FRAME
    ensures Unharmed(ClientEvents(units, s, turns), s)
  {
    if turns == [] {
    } else {
      var before := turns[..|turns| - 1];
      ClientStaysUnharmed(units, s, before);
      TurnIsHarmless(units, s, ClientRun(units, s, before), turns[|turns| - 1]);
    }
  }

  lemma {:induction false} OfMembers(all: seq<(string, Shown)>, s: string)
    ensures forall x | x in Of(all, s) :: (s, x) in all
  {
    if all == [] {
    } else {
      var k := |all| - 1;
      OfMembers(all[..k], s);
      assert all[k] in all;
    }
  }

  // ---------------------------------------------------------------- when two gates are one

  /** What the session shows are runs of the offered units, each from a keyframe on and without a gap. */
  ghost predicate Composed(offered: seq<Bytes>, s: string, turns: seq<Turn>, clientTurns: seq<ClientTurn>) {
    var host := Numbers(HostLine(offered, turns).sent);
    && (forall j | 0 <= j < |host| :: host[j] < |offered|)
    && var client := Numbers(Of(ClientRun(Picked(offered, host), s, clientTurns).shown, s));
    && (forall j | 0 <= j < |client| :: client[j] < |host|)
    && PassedBy(offered, Picked(host, client), ClientKey)
  }

  /** Parameter sets without a picture, five or more places behind a keyframe that both ends can let through. */
  ghost predicate Breaks(offered: seq<Bytes>, h: nat, c: nat, p: nat) {
    h <= c && c + 5 <= p < |offered| && HostKey(offered[h]) && ClientKey(offered[c]) && ParameterSetsOnly(offered[p])
  }

  /** Whatever is passed on stands in an unbroken run behind a keyframe. */
  lemma {:induction false} RunBehind(units: seq<Bytes>, out: seq<nat>, key: Bytes -> bool, j: nat) returns (i: nat)
    requires PassedBy(units, out, key) && j < |out|
    ensures i <= j && key(units[out[i]]) && out[j] == out[i] + (j - i)
  {
    if key(units[out[j]]) { i := j; } else { i := RunBehind(units, out, key, j - 1); }
  }

  lemma HostFacts(offered: seq<Bytes>, w: seq<Shown>)
    requires Spaced(w, offered)
    ensures forall j | 0 <= j < |w| :: Numbers(w)[j] < |offered|
    ensures PassedBy(offered, Numbers(w), HostKey)
  {
    forall j | 0 <= j < |w| ensures w[j].key || w[j].raced || (j > 0 && w[j - 1].nr + 1 == w[j].nr) {
      assert SpacedAt(w, offered, j);
    }
    forall j | 0 <= j < |w| ensures !w[j].raced && w[j].nr < |offered| && w[j].key == HostKey(offered[w[j].nr]) {
      assert SpacedAt(w, offered, j);
    }
    NumbersPassed(offered, w, HostKey);
  }

  lemma ClientFacts(units: seq<Bytes>, s: string, turns: seq<ClientTurn>)
    requires forall d | d in units :: |d| <= MAX_FRAME
    ensures var client := Numbers(Of(ClientRun(units, s, turns).shown, s));
      (forall j | 0 <= j < |client| :: client[j] < |units|) && PassedBy(units, client, ClientKey)
  {
    var shown := Of(ClientRun(units, s, turns).shown, s);
    ClientStaysFed(units, s, turns);
    OfMembers(ClientRun(units, s, turns).shown, s);
    ClientStaysUnharmed(units, s, turns);
    SessionsStayContiguous(ClientEvents(units, s, turns), s);
    NumbersPassed(units, shown, ClientKey);
  }

  /** A delta of the client that does not follow in the offered units: the host resumed there after a loss. */
  lemma BreaksBehind(offered: seq<Bytes>, w: seq<Shown>, client: seq<nat>, j: nat) returns (h: nat, c: nat, p: nat)
    requires Spaced(w, offered) && (forall i | 0 <= i < |w| :: Numbers(w)[i] < |offered|)
    requires PassedBy(Picked(offered, Numbers(w)), client, ClientKey) && j < |client|
    requires !ClientKey(offered[w[client[j]].nr]) && (j == 0 || w[client[j - 1]].nr + 1 != w[client[j]].nr)
    ensures Breaks(offered, h, c, p)
  {
    var host := Numbers(w);
    var units, k := Picked(offered, host), client[j];
    p := w[k].nr;
    assert units[k] == offered[p] && client[j - 1] + 1 == k;
    assert SpacedAt(w, offered, k);
    KeyTestsCompared(offered[p]);
    var i := RunBehind(units, client, ClientKey, j);
    c := w[client[i]].nr;
    assert i < j && units[client[i]] == offered[c];
    SpacedRises(w, offered, client[i], k - 1);
    HostFacts(offered, w);
    var b := RunBehind(offered, host, HostKey, client[i]);
    h := host[b];
  }

  lemma SomeGap(offered: seq<Bytes>, w: seq<Shown>, client: seq<nat>) returns (h: nat, c: nat, p: nat)
    requires Spaced(w, offered) && (forall i | 0 <= i < |w| :: Numbers(w)[i] < |offered|)
    requires PassedBy(Picked(offered, Numbers(w)), client, ClientKey)
    requires !PassedBy(offered, Picked(Numbers(w), client), ClientKey)
    ensures Breaks(offered, h, c, p)
  {
    var out := Picked(Numbers(w), client);
    assert forall j | 0 <= j < |out| :: out[j] == w[client[j]].nr < |offered|;
    var j: nat :| j < |out| && !ClientKey(offered[out[j]]) && (j == 0 || out[j - 1] + 1 != out[j]);
    h, c, p := BreaksBehind(offered, w, client, j);
  }

  lemma PickedSmall(offered: seq<Bytes>, host: seq<nat>)
    requires (forall d | d in offered :: |d| <= MAX_FRAME) && forall j | 0 <= j < |host| :: host[j] < |offered|
    ensures forall d | d in Picked(offered, host) :: |d| <= MAX_FRAME
  {
    var units := Picked(offered, host);
    forall d | d in units ensures |d| <= MAX_FRAME {
      var i :| 0 <= i < |units| && units[i] == d;
      assert offered[host[i]] in offered;
    }
  }

  lemma BreaksIfNotComposed(offered: seq<Bytes>, s: string, turns: seq<Turn>, clientTurns: seq<ClientTurn>)
    returns (h: nat, c: nat, p: nat)
    requires !Composed(offered, s, turns, clientTurns) && forall d | d in offered :: |d| <= MAX_FRAME
    ensures Breaks(offered, h, c, p)
  {
    var l := HostLine(offered, turns);
    HostStaysCalm(offered, turns);
    SpacedPart(l.sent, Written(l.o.queue, false), offered);
    HostFacts(offered, l.sent);
    var units := Picked(offered, Numbers(l.sent));
    PickedSmall(offered, Numbers(l.sent));
    ClientFacts(units, s, clientTurns);
    h, c, p := SomeGap(offered, l.sent, Numbers(Of(ClientRun(units, s, clientTurns).shown, s)));
  }

  // ---------------------------------------------------------------- a run that breaks

  /** What an open path passes on of the first n units: everything from the first keyframe on. */
  ghost function Passed(units: seq<Bytes>, n: nat, key: Bytes -> bool): seq<Shown>
    requires n <= |units|
  {
    if n == 0 then []
    else
      var before := Passed(units, n - 1, key);
      before + if before != [] || key(units[n - 1]) then [Shown(n - 1, key(units[n - 1]), false)] else []
  }

  lemma {:induction false} PassedShape(units: seq<Bytes>, n: nat, key: Bytes -> bool)
    requires n <= |units|
    ensures |Passed(units, n, key)| <= n
    ensures var w := Passed(units, n, key); forall j | 0 <= j < |w| :: w[j].nr == n - |w| + j
  {
    if n == 0 {
    } else {
      PassedShape(units, n - 1, key);
    }
  }

  lemma {:induction false} PassedFrom(units: seq<Bytes>, n: nat, key: Bytes -> bool, h: nat)
    requires h < n <= |units| && key(units[h])
    ensures |Passed(units, n, key)| >= n - h
  {
    if n == h + 1 {
    } else {
      PassedFrom(units, n - 1, key, h);
    }
  }

  /** The writer keeps up for n offers. */
  function Through(n: nat): seq<Turn> {
    if n == 0 then [] else Through(n - 1) + [OfferNext] + [WriteNext]
  }

  lemma OfferAndWrite(offered: seq<Bytes>, turns: seq<Turn>)
    requires var l := HostLine(offered, turns); l.o.queue == [] && l.count < |offered|
    ensures var l := HostLine(offered, turns); var k := HostKey(offered[l.count]);
      HostLine(offered, turns + [OfferNext] + [WriteNext])
      == if l.o.needsKey && !k then l.(count := l.count + 1)
         else Line(Outbox([], false), l.count + 1, l.sent + [Shown(l.count, k, false)])
  {
    var l := HostLine(offered, turns);
    HostGrows(offered, turns, OfferNext);
    HostGrows(offered, turns + [OfferNext], WriteNext);
    var p := Packet(l.count, HostKey(offered[l.count]));
    assert [] + [p] == [p] && [p][1..] == [];
    assert Written([p], false) == [Shown(p.nr, p.key, false)];
  }

  lemma {:induction false} ThroughRuns(offered: seq<Bytes>, n: nat)
    requires n <= |offered|
    ensures var sent := Passed(offered, n, HostKey);
      HostLine(offered, Through(n)) == Line(Outbox([], sent == []), n, sent)
  {
    if n == 0 {
    } else {
      ThroughRuns(offered, n - 1);
      OfferAndWrite(offered, Through(n - 1));
      var before := Passed(offered, n - 1, HostKey);
      assert before + [] == before;
    }
  }

  /** The writer keeps up for n offers, stalls for four, and goes on. */
  function Stalling(n: nat): seq<Turn> {
    Through(n) + [OfferNext] + [OfferNext] + [OfferNext] + [OfferNext] + [OfferNext] + [WriteNext]
  }

  lemma OfferQueued(offered: seq<Bytes>, turns: seq<Turn>)
    requires var l := HostLine(offered, turns); !l.o.needsKey && |l.o.queue| < CAPACITY && l.count < |offered|
    ensures var l := HostLine(offered, turns);
      HostLine(offered, turns + [OfferNext])
      == Line(Outbox(l.o.queue + [Packet(l.count, HostKey(offered[l.count]))], false), l.count + 1, l.sent)
  {
    HostGrows(offered, turns, OfferNext);
  }

  lemma OfferOverflows(offered: seq<Bytes>, turns: seq<Turn>)
    requires var l := HostLine(offered, turns); !l.o.needsKey && |l.o.queue| == CAPACITY && l.count < |offered|
    ensures var l := HostLine(offered, turns);
      HostLine(offered, turns + [OfferNext]) == Line(Outbox([], true), l.count + 1, l.sent)
  {
    var l := HostLine(offered, turns);
    HostGrows(offered, turns, OfferNext);
    LosingWinsNothing(l.o.queue);
    assert l.sent + Written([], true) == l.sent;
  }

  lemma ThreeQueued(offered: seq<Bytes>, turns: seq<Turn>)
    requires var l := HostLine(offered, turns); !l.o.needsKey && l.o.queue == [] && l.count + 3 <= |offered|
    ensures var l := HostLine(offered, turns); var l' := HostLine(offered, turns + [OfferNext] + [OfferNext]
        + [OfferNext]);
      !l'.o.needsKey && |l'.o.queue| == CAPACITY && l'.count == l.count + 3 && l'.sent == l.sent
  {
    OfferQueued(offered, turns);
    OfferQueued(offered, turns + [OfferNext]);
    OfferQueued(offered, turns + [OfferNext] + [OfferNext]);
  }

  lemma StallFrom(offered: seq<Bytes>, turns: seq<Turn>)
    requires var l := HostLine(offered, turns);
      !l.o.needsKey && l.o.queue == [] && l.count + 4 < |offered| && HostKey(offered[l.count + 4])
    ensures var l := HostLine(offered, turns);
      HostLine(offered, turns + [OfferNext] + [OfferNext] + [OfferNext] + [OfferNext] + [OfferNext] + [WriteNext]).sent
      == l.sent + [Shown(l.count + 4, true, false)]
  {
    var full := turns + [OfferNext] + [OfferNext] + [OfferNext];
    ThreeQueued(offered, turns);
    OfferOverflows(offered, full);
    OfferAndWrite(offered, full + [OfferNext]);
  }

  lemma StallingRuns(offered: seq<Bytes>, n: nat)
    requires n + 4 < |offered| && Passed(offered, n, HostKey) != [] && HostKey(offered[n + 4])
    ensures HostLine(offered, Stalling(n)).sent == Passed(offered, n, HostKey) + [Shown(n + 4, true, false)]
  {
    ThroughRuns(offered, n);
    StallFrom(offered, Through(n));
  }

  lemma EmitDropped(v: Viewer, s: string, d: Bytes)
    requires s in v.count && v.g.frames == [] && s in v.g.waiting && !ClientKey(d)
    ensures var v' := Step(v, Emit(s, d, 0, []));
      v'.g.frames == [] && v'.count == v.count[s := v.count[s] + 1] && s in v'.g.waiting && v'.shown == v.shown
  {
    assert v.shown + Tag([], true) == v.shown;
  }

  lemma EmitShown(v: Viewer, s: string, d: Bytes)
    requires s in v.count && v.g.frames == [] && |d| <= MAX_FRAME && (s !in v.g.waiting || ClientKey(d))
    ensures var v' := Step(Step(v, Emit(s, d, 0, [])), Deliver);
      && v'.g.frames == [] && v'.count == v.count[s := v.count[s] + 1] && s !in v'.g.waiting
      && Of(v'.shown, s) == Of(v.shown, s) + [Shown(v.count[s], ClientKey(d), false)]
  {
    var f, v1 := Frame(s, v.count[s], d), Step(v, Emit(s, d, 0, []));
    assert v.shown + Tag([], true) == v.shown && [] + [f] == [f];
    assert v1.g.frames == [f] && v1.shown == v.shown;
    var all := v.shown + Tag([f], false);
    assert all[..|all| - 1] == v.shown;
  }

  ghost predicate UpToDate(v: Viewer, s: string, n: nat, shown: seq<Shown>) {
    && v.g.frames == [] && s in v.count && v.count[s] == n
    && (s in v.g.waiting <==> shown == []) && Of(v.shown, s) == shown
  }

  lemma FeedAndShow(v: Viewer, units: seq<Bytes>, s: string, n: nat)
    requires n < |units| && |units[n]| <= MAX_FRAME && UpToDate(v, s, n, Passed(units, n, ClientKey))
    ensures UpToDate(Step(Step(v, Emit(s, units[n], 0, [])), Deliver), s, n + 1, Passed(units, n + 1, ClientKey))
  {
    var before := Passed(units, n, ClientKey);
    if before == [] && !ClientKey(units[n]) {
      EmitDropped(v, s, units[n]);
      assert before + [] == before;
    } else {
      EmitShown(v, s, units[n]);
    }
  }

  /** After these turns the session has been shown what a gate passes of the first n units, and nothing is queued. */
  ghost predicate Kept(units: seq<Bytes>, s: string, turns: seq<ClientTurn>, n: nat) {
    n <= |units| && UpToDate(ClientRun(units, s, turns), s, n, Passed(units, n, ClientKey))
  }

  lemma FeedThenShow(units: seq<Bytes>, s: string, turns: seq<ClientTurn>, n: nat)
    requires n < |units| && |units[n]| <= MAX_FRAME && Kept(units, s, turns, n)
    ensures Kept(units, s, turns + [Feed(0)] + [Show], n + 1)
  {
    var v := ClientRun(units, s, turns);
    assert Losing(0) == [];
    ClientGrows(units, s, turns, Feed(0));
    ClientGrows(units, s, turns + [Feed(0)], Show);
    FeedAndShow(v, units, s, n);
  }

  lemma Joined(units: seq<Bytes>, s: string)
    ensures Kept(units, s, [Join], 0)
  {
    assert [Join] == [] + [Join];
    ClientGrows(units, s, [], Join);
  }

  /** The consumer keeps up for n emissions. */
  lemma {:induction false} KeepsUp(units: seq<Bytes>, s: string, n: nat) returns (turns: seq<ClientTurn>)
    requires n <= |units| && forall i | 0 <= i < |units| :: |units[i]| <= MAX_FRAME
    ensures Kept(units, s, turns, n)
  {
    if n == 0 {
      Joined(units, s);
      turns := [Join];
    } else {
      var before := KeepsUp(units, s, n - 1);
      FeedThenShow(units, s, before, n - 1);
      turns := before + [Feed(0)] + [Show];
    }
  }

  lemma TwoInARow(offered: seq<Bytes>, out: seq<nat>, j: nat)
    requires 0 < j < |out| && out[j] < |offered| && !ClientKey(offered[out[j]]) && out[j - 1] + 1 != out[j]
    ensures !PassedBy(offered, out, ClientKey)
  {
  }

  /** The host sent m units in a row, the last of them p - 5, and then p. */
  ghost predicate SentWithGap(offered: seq<Bytes>, host: seq<nat>, m: nat, p: nat) {
    |host| == m + 1 && host[m] == p < |offered| && m <= p - 4 && forall j | 0 <= j < m :: host[j] == p - 4 - m + j
  }

  /** What the host sends when its writer stalls just before p. */
  lemma StallingNumbers(offered: seq<Bytes>, h: nat, p: nat)
    requires h + 5 <= p < |offered| && HostKey(offered[h]) && HostKey(offered[p])
    ensures var host, m := Numbers(HostLine(offered, Stalling(p - 4)).sent), |Passed(offered, p - 4, HostKey)|;
      SentWithGap(offered, host, m, p) && p - 4 - m <= h
  {
    PassedFrom(offered, p - 4, HostKey, h);
    PassedShape(offered, p - 4, HostKey);
    StallingRuns(offered, p - 4);
  }

  lemma PassedEnd(units: seq<Bytes>, m: nat, c: nat, key: Bytes -> bool)
    requires |units| == m + 1 && c < m && key(units[c])
    ensures var w := Passed(units, m + 1, key); |w| >= 2 && w[|w| - 1].nr == m && w[|w| - 2].nr == m - 1
  {
    PassedFrom(units, m + 1, key, c);
    PassedShape(units, m + 1, key);
  }

  /** What the client shows of m + 1 units when it keeps up: the last two units among them. */
  lemma EndsShown(units: seq<Bytes>, shown: seq<Shown>, m: nat, c: nat)
    requires |units| == m + 1 && c < m && ClientKey(units[c]) && shown == Passed(units, m + 1, ClientKey)
    ensures var client := Numbers(shown); |client| >= 2 && client[|client| - 1] == m && client[|client| - 2] == m - 1
  {
    PassedEnd(units, m, c, ClientKey);
  }

  /** The last two of them are the last two the host sent, with four lost in between. */
  lemma LastTwo(offered: seq<Bytes>, host: seq<nat>, client: seq<nat>, m: nat, p: nat)
    requires |host| == m + 1 && host[m] == p < |offered| && m > 0 && host[m - 1] + 1 != p && !ClientKey(offered[p])
    requires |client| >= 2 && client[|client| - 1] == m && client[|client| - 2] == m - 1
    requires forall i | 0 <= i < |client| :: client[i] < |host|
    ensures !PassedBy(offered, Picked(host, client), ClientKey)
  {
    TwoInARow(offered, Picked(host, client), |client| - 1);
  }

  ghost predicate Sendable(offered: seq<Bytes>, host: seq<nat>) {
    forall j | 0 <= j < |host| :: host[j] < |offered|
  }

  lemma GapIsSendable(offered: seq<Bytes>, host: seq<nat>, m: nat, p: nat)
    requires SentWithGap(offered, host, m, p)
    ensures Sendable(offered, host)
  {
  }

  /** Before the loss the host sent without a gap, so it sent unit c. */
  lemma SentBefore(offered: seq<Bytes>, host: seq<nat>, m: nat, c: nat, p: nat) returns (k: nat)
    requires SentWithGap(offered, host, m, p) && p - 4 - m <= c < p - 4
    ensures k < m && host[k] == c && host[m - 1] + 1 != p
    ensures Sendable(offered, host) && Picked(offered, host)[k] == offered[c]
  {
    k := c - (p - 4 - m);
  }

  /** Whatever the host sent and the client showed, with a loss of four between their last two units. */
  lemma LossShows(offered: seq<Bytes>, host: seq<nat>, shown: seq<Shown>, m: nat, c: nat, p: nat)
    requires SentWithGap(offered, host, m, p) && p - 4 - m <= c < p - 4
    requires ClientKey(offered[c]) && !ClientKey(offered[p]) && Sendable(offered, host)
    requires shown == Passed(Picked(offered, host), m + 1, ClientKey)
    ensures (forall i | 0 <= i < |shown| :: Numbers(shown)[i] < |host|)
        ==> !PassedBy(offered, Picked(host, Numbers(shown)), ClientKey)
  {
    var k := SentBefore(offered, host, m, c, p);
    EndsShown(Picked(offered, host), shown, m, k);
    if forall i | 0 <= i < |shown| :: Numbers(shown)[i] < |host| { LastTwo(offered, host, Numbers(shown), m, p); }
  }

  /** A run in which the host sends those units and the client shows those is not composed. */
  lemma NotComposed(offered: seq<Bytes>, s: string, turns: seq<Turn>, clientTurns: seq<ClientTurn>, host: seq<nat>,
      m: nat, c: nat, p: nat)
    requires host == Numbers(HostLine(offered, turns).sent)
    requires SentWithGap(offered, host, m, p) && Sendable(offered, host)
    requires Of(ClientRun(Picked(offered, host), s, clientTurns).shown, s)
          == Passed(Picked(offered, host), m + 1, ClientKey)
    requires p - 4 - m <= c < p - 4 && ClientKey(offered[c]) && !ClientKey(offered[p])
    ensures !Composed(offered, s, turns, clientTurns)
  {
    LossShows(offered, host, Passed(Picked(offered, host), m + 1, ClientKey), m, c, p);
  }

  lemma KeepsUpWith(offered: seq<Bytes>, host: seq<nat>, s: string) returns (clientTurns: seq<ClientTurn>)
    requires (forall d | d in offered :: |d| <= MAX_FRAME) && Sendable(offered, host)
    ensures var units := Picked(offered, host);
      Of(ClientRun(units, s, clientTurns).shown, s) == Passed(units, |host|, ClientKey)
  {
    var units := Picked(offered, host);
    forall i | 0 <= i < |units| ensures |units[i]| <= MAX_FRAME { assert offered[host[i]] in offered; }
    clientTurns := KeepsUp(units, s, |host|);
  }

  lemma StallingBreaks(offered: seq<Bytes>, h: nat, c: nat, p: nat, s: string) returns (clientTurns: seq<ClientTurn>)
    requires Breaks(offered, h, c, p) && forall d | d in offered :: |d| <= MAX_FRAME
    ensures !Composed(offered, s, Stalling(p - 4), clientTurns)
  {
    var host, m := Numbers(HostLine(offered, Stalling(p - 4)).sent), |Passed(offered, p - 4, HostKey)|;
    KeyTestsCompared(offered[p]);
    StallingNumbers(offered, h, p);
    GapIsSendable(offered, host, m, p);
    clientTurns := KeepsUpWith(offered, host, s);
    NotComposed(offered, s, Stalling(p - 4), clientTurns, host, m, c, p);
  }

  /**
   Some undisturbed run of both ends over a lossless link shows a session something else than runs of the
   offered units if and only if bare parameter sets come five or more places behind a client keyframe that the
   host can have let through: four lost packets are the least that makes the host wait for a keyframe.
   */
  lemma CompositionExactly(offered: seq<Bytes>, s: string)
    requires forall d | d in offered :: |d| <= MAX_FRAME
    ensures (forall turns, clientTurns :: Composed(offered, s, turns, clientTurns))
       <==> !exists h, c, p :: Breaks(offered, h, c, p)
  {
    if h, c, p :| Breaks(offered, h, c, p) {
      var clientTurns := StallingBreaks(offered, h, c, p, s);
    } else if turns, clientTurns :| !Composed(offered, s, turns, clientTurns) {
      var h, c, p := BreaksIfNotComposed(offered, s, turns, clientTurns);
    }
  }

  const PARAMETERS: Bytes := [0, 0, 1, 7, 0]

  lemma SampleStream()
    ensures HostKey(PARAMETERS) && !ClientKey(PARAMETERS) && ParameterSetsOnly(PARAMETERS)
  {
    assert UnitAt(PARAMETERS, 3) && UnitType(PARAMETERS, 3) == 7 && !ClientKey(PARAMETERS);
    KeyTestsCompared(PARAMETERS);
  }

  /** What the two ends do in the example: one unit passes, the writer stalls for four, and the next one passes. */
  const STALL: seq<Turn> := [OfferNext] + [WriteNext] + [OfferNext] + [OfferNext] + [OfferNext] + [OfferNext]
      + [OfferNext] + [WriteNext]
  const TWO_SHOWN: seq<ClientTurn> := [Join] + [Feed(0)] + [Show] + [Feed(0)] + [Show]

  const STREAM: seq<Bytes> := [IDR, DELTA, DELTA, DELTA, DELTA, PARAMETERS]

  lemma StallOnStream()
    ensures Numbers(HostLine(STREAM, STALL).sent) == [0, 5]
  {
    SampleKeys();
    SampleStream();
    assert Through(1) == [] + [OfferNext] + [WriteNext] == [OfferNext] + [WriteNext];
    assert Stalling(1) == STALL;
    assert Passed(STREAM, 0, HostKey) == [] && Passed(STREAM, 1, HostKey) == [Shown(0, true, false)];
    StallingRuns(STREAM, 1);
  }

  lemma TwoAreShown(units: seq<Bytes>, s: string)
    requires |units| == 2 && |units[0]| <= MAX_FRAME && |units[1]| <= MAX_FRAME
    ensures Of(ClientRun(units, s, TWO_SHOWN).shown, s) == Passed(units, 2, ClientKey)
  {
    Joined(units, s);
    FeedThenShow(units, s, [Join], 0);
    FeedThenShow(units, s, [Join] + [Feed(0)] + [Show], 1);
  }

  /** A stream and a run of both ends in which the client shows parameter sets and a picture it cannot decode. */
  lemma ParameterSetsBreakComposition(s: string)
    ensures !Composed(STREAM, s, STALL, TWO_SHOWN)
  {
    SampleKeys();
    SampleStream();
    StallOnStream();
    TwoAreShown(Picked(STREAM, [0, 5]), s);
    NotComposed(STREAM, s, STALL, TWO_SHOWN, [0, 5], 1, 0, 5);
  }
}
