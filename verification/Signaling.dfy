/**
 The signaling hub (server/hub.go): who is online, who is linked to whom, and where messages go.  A peer is
 a connection and is numbered; its identifier is the ten-digit name its key is registered under.  Session
 identifiers are random, so a new one is not in use.
 */
module Signaling {
  import opened Prelude
  import opened Limiter

  const MAX_LINKS := 128
  const MAX_CALLEE := 16
  const DAY := 86400000
  const MAX_SDP := 100000

  type Peer = nat

  datatype Identity = Identity(id: string, ip: string)

  datatype Link = Link(a: Peer, b: Peer, created: int)

  datatype Message =
    | Pong
    | Connect(target: string)
    | Description(session: string, sdp: nat)  // an offer or an answer, by the length of its body
    | Close(session: string)
    | Unknown(session: string)

  datatype Signal =
    | Linked(session: string, other: Peer, caller: bool)
    | Described(session: string)
    | Closed(session: string)
    | Refused
    | Disconnected  // over its message limit: the connection is closed

  /** A signal and the peer it goes to. */
  type Delivery = (Peer, Signal)

  datatype Hub = Hub(
    peers: map<Peer, Identity>,    // every connection that ever came online
    online: map<string, Peer>,
    links: map<string, Link>,
    limits: Windows,
    issued: set<string>)           // every session name there has been

  const EMPTY := Hub(map[], map[], map[], map[], {})

  predicate Online(h: Hub, p: Peer) {
    p in h.peers && h.peers[p].id in h.online && h.online[h.peers[p].id] == p
  }

  predicate Joins(l: Link, p: Peer) {
    l.a == p || l.b == p
  }

  function Other(l: Link, p: Peer): Peer {
    if l.a == p then l.b else l.a
  }

  function LinksOf(links: map<string, Link>, p: Peer): set<string> {
    set s | s in links && Joins(links[s], p)
  }

  function CallsTo(links: map<string, Link>, p: Peer): set<string> {
    set s | s in links && links[s].b == p
  }

  function Current(links: map<string, Link>, now: int): map<string, Link> {
    map s | s in links && now - links[s].created <= DAY :: links[s]
  }

  /** Three limits in turn; a refused one keeps the later ones from being charged. */
  function ConnectAllowed(limits: Windows, from: Identity, target: string, now: int): (Windows, bool) {
    var (l1, ok1) := Allowed(limits, "connect:" + from.id, 12, now);
    if !ok1 then (l1, false)
    else
      var (l2, ok2) := Allowed(l1, "source:" + from.ip, 30, now);
      if !ok2 then (l2, false) else Allowed(l2, "target:" + target, 30, now)
  }

  function Connected(h: Hub, p: Peer, target: string, session: string, now: int): (Hub, seq<Delivery>)
    requires Online(h, p)
  {
    var (limits, ok) := ConnectAllowed(h.limits, h.peers[p], target, now);
    var h1 := h.(limits := limits);
    if !ok || target !in h.online || h.online[target] == p then (h1, [(p, Refused)])
    else
      var q, live := h.online[target], Current(h.links, now);
      if |LinksOf(live, q)| >= MAX_CALLEE || |live| >= MAX_LINKS then (h1.(links := live), [(p, Refused)])
      else (h1.(links := live[session := Link(p, q, now)], issued := h.issued + {session}),
          [(p, Linked(session, q, true)), (q, Linked(session, p, false))])
  }

  function Forwarded(h: Hub, p: Peer, m: Message): (Hub, seq<Delivery>) {
    match m
    case Description(s, sdp) =>
      if s in h.links && Joins(h.links[s], p) && 0 < sdp < MAX_SDP then (h, [(Other(h.links[s], p), Described(s))])
      else (h, [])
    case Close(s) =>
      if s in h.links && Joins(h.links[s], p) then
        (h.(links := h.links - {s}), [(Other(h.links[s], p), Closed(s))])
      else (h, [])
    case _ => (h, [])
  }

  function Routed(h: Hub, p: Peer, m: Message, session: string, now: int): (Hub, seq<Delivery>)
    requires Online(h, p)
  {
    if m == Pong then (h, [])
    else
      var (limits, ok) := Allowed(h.limits, "messages:" + h.peers[p].id, 240, now);
      var h1 := h.(limits := limits);
      if !ok then (h1, [(p, Disconnected)])
      else if m.Connect? then Connected(h1, p, m.target, session, now)
      else Forwarded(h1, p, m)
  }

  function Entered(h: Hub, p: Peer, who: Identity): Hub {
    if p in h.peers || who.id in h.online then h
    else h.(peers := h.peers[p := who], online := h.online[who.id := p])
  }

  function Departed(h: Hub, p: Peer): Hub
    requires p in h.peers
  {
    h.(online := h.online - {h.peers[p].id}, links := h.links - LinksOf(h.links, p))
  }

  datatype Event =
    | Knock(ip: string, now: int)
    | Enter(p: Peer, who: Identity)
    | Depart(p: Peer)
    | Route(p: Peer, m: Message, session: string, now: int)

  /** A leaver's links are closed, and their other ends are told. */
  function Farewells(h: Hub, p: Peer): set<Delivery> {
    set s | s in LinksOf(h.links, p) :: (Other(h.links[s], p), Closed(s))
  }

  function Elements(out: seq<Delivery>): set<Delivery> {
    set d | d in out
  }

  /**
   A connection's messages and its departure come from its own reader, so only while it is online; a session name
   is never drawn twice.
   */
  function Step(h: Hub, ev: Event): (Hub, set<Delivery>) {
    match ev
    case Knock(ip, now) => (h.(limits := Allowed(h.limits, "register:" + ip, 30, now).0), {})
    case Enter(p, who) => (Entered(h, p, who), {})
    case Depart(p) => if !Online(h, p) then (h, {}) else (Departed(h, p), Farewells(h, p))
    case Route(p, m, session, now) =>
      if !Online(h, p) || session in h.issued then (h, {})
      else
        var (h', out) := Routed(h, p, m, session, now);
        (h', Elements(out))
  }

  function Run(h: Hub, events: seq<Event>): Hub {
    if events == [] then h else Step(Run(h, events[..|events| - 1]), events[|events| - 1]).0
  }

  // ---------------------------------------------------------------- the source's own form

  class SignalHub {
    const limiter: RateLimiter
    var peers: map<Peer, Identity>
    var online: map<string, Peer>
    var links: map<string, Link>
    ghost var issued: set<string>

    ghost function View(): Hub
      reads this, limiter
    {
      Hub(peers, online, links, limiter.limits, issued)
    }

    constructor (limiter: RateLimiter)
      requires limiter.limits == map[]
      ensures View() == EMPTY && this.limiter == limiter
    {
      this.limiter := limiter;
      peers, online, links, issued := map[], map[], map[], {};
    }

    method Register(p: Peer, who: Identity) returns (ok: bool)
      requires p !in peers
      modifies this
      ensures View() == Entered(old(View()), p, who) && ok == (who.id !in old(online))
    {
      if who.id in online {
        return false;
      }
      peers, online := peers[p := who], online[who.id := p];
      return true;
    }

    method Leave(p: Peer) returns (told: set<Delivery>)
      requires Online(View(), p)
      modifies this
      ensures View() == Departed(old(View()), p) && told == Farewells(old(View()), p)
    {
      online := online - {peers[p].id};
      told := {};
      var left := links.Keys;
      while left != {}
        invariant left <= old(links).Keys
        invariant View() == old(View()).(online := online, links := links) && online == old(online) - {old(peers)[p].id}
        invariant links == old(links) - (LinksOf(old(links), p) - left)
        invariant told
               == set s | s in LinksOf(old(links), p) && s !in left :: (Other(old(links)[s], p), Closed(s))
        decreases left
      {
        var s :| s in left;
        left := left - {s};
        if links[s].a == p || links[s].b == p {
          told := told + {(Other(links[s], p), Closed(s))};
          links := links - {s};
        }
      }
    }

    /** Drops the links that are over a day old and counts those of `q` among the rest. */
    method Prune(q: Peer, now: int) returns (count: nat)
      modifies this`links
      ensures links == Current(old(links), now) && count == |LinksOf(links, q)|
    {
      ghost var was, counted: set<string> := links, {};
      count := 0;
      var left := links.Keys;
      while left != {}
        invariant left <= was.Keys && left <= links.Keys && links.Keys <= was.Keys
        invariant forall s | s in links :: links[s] == was[s]
        invariant forall s | s in was && s !in left :: s in links <==> now - was[s].created <= DAY
        invariant count == |counted|
        invariant forall s :: s in counted <==> s in links && s !in left && Joins(links[s], q)
        decreases left
      {
        var s :| s in left;
        left := left - {s};
        if now - links[s].created > DAY {
          links := links - {s};
        } else if links[s].a == q || links[s].b == q {
          count, counted := count + 1, counted + {s};
        }
      }
      assert links == Current(was, now);
      assert counted == LinksOf(links, q);
    }

    method RequestLink(p: Peer, target: string, session: string, now: int) returns (out: seq<Delivery>)
      requires Online(View(), p)
      modifies this, limiter
      ensures (View(), out) == Connected(old(View()), p, target, session, now)
    {
      var ok := limiter.Allow("connect:" + peers[p].id, 12, now);
      if ok {
        ok := limiter.Allow("source:" + peers[p].ip, 30, now);
      }
      if ok {
        ok := limiter.Allow("target:" + target, 30, now);
      }
      if !ok || target !in online || online[target] == p {
        return [(p, Refused)];
      }
      var q := online[target];
      var count := Prune(q, now);
      if count >= MAX_CALLEE || |links| >= MAX_LINKS {
        return [(p, Refused)];
      }
      links, issued := links[session := Link(p, q, now)], issued + {session};
      return [(p, Linked(session, q, true)), (q, Linked(session, p, false))];
    }

    method HandleMessage(p: Peer, m: Message, session: string, now: int) returns (out: seq<Delivery>)
      requires Online(View(), p)
      modifies this, limiter
      ensures (View(), out) == Routed(old(View()), p, m, session, now)
    {
      if m == Pong {
        return [];
      }
      var ok := limiter.Allow("messages:" + peers[p].id, 240, now);
      if !ok {
        return [(p, Disconnected)];
      }
      if m.Connect? {
        out := RequestLink(p, m.target, session, now);
        return out;
      }
      if m.session !in links || !Joins(links[m.session], p) {
        return [];
      }
      var target := links[m.session].a;
      if target == p {
        target := links[m.session].b;
      }
      match m {
        case Description(s, sdp) =>
          return if 0 < sdp < MAX_SDP then [(target, Described(s))] else [];
        case Close(s) =>
          links := links - {s};
          return [(target, Closed(s))];
        case _ =>
          return [];
      }
    }
  }

  // ---------------------------------------------------------------- what every run keeps

  ghost predicate Inv(h: Hub) {
    && (forall id | id in h.online :: h.online[id] in h.peers && h.peers[h.online[id]].id == id)
    && (forall s | s in h.links :: Online(h, h.links[s].a) && Online(h, h.links[s].b) && h.links[s].a != h.links[s].b)
    && |h.links| <= MAX_LINKS && h.links.Keys <= h.issued
    && forall p :: |CallsTo(h.links, p)| <= MAX_CALLEE
  }

  lemma FewerLinks(less: map<string, Link>, more: map<string, Link>, p: Peer)
    requires forall s | s in less :: s in more && less[s] == more[s]
    ensures |less| <= |more| && |CallsTo(less, p)| <= |CallsTo(more, p)|
  {
    SubsetSize(less.Keys, more.Keys);
    SubsetSize(CallsTo(less, p), CallsTo(more, p));
    assert |less| == |less.Keys| && |more| == |more.Keys|;
  }

  lemma ShrinkKeepsInv(h: Hub, h': Hub)
    requires Inv(h) && h'.peers == h.peers && h'.online == h.online
    requires forall s | s in h'.links :: s in h.links && h'.links[s] == h.links[s]
    requires h.issued <= h'.issued
    ensures Inv(h')
  {
    forall p ensures |CallsTo(h'.links, p)| <= MAX_CALLEE { FewerLinks(h'.links, h.links, p); }
    FewerLinks(h'.links, h.links, 0);
  }

  /** A new link counts for its called side alone. */
  lemma CallsAfterLink(links: map<string, Link>, session: string, l: Link, x: Peer)
    requires session !in links
    ensures CallsTo(links[session := l], x) == CallsTo(links, x) + if x == l.b then {session} else {}
  {
  }

  lemma LinkKeepsInv(h: Hub, p: Peer, q: Peer, session: string, now: int)
    requires Inv(h) && Online(h, p) && Online(h, q) && p != q && session !in h.links
    requires |LinksOf(h.links, q)| < MAX_CALLEE && |h.links| < MAX_LINKS
    ensures Inv(h.(links := h.links[session := Link(p, q, now)], issued := h.issued + {session}))
  {
    var links' := h.links[session := Link(p, q, now)];
    forall x ensures |CallsTo(links', x)| <= MAX_CALLEE {
      CallsAfterLink(h.links, session, Link(p, q, now), x);
      if x == q { SubsetSize(CallsTo(h.links, q), LinksOf(h.links, q)); }
    }
  }

  lemma ConnectKeepsInv(h: Hub, p: Peer, target: string, session: string, now: int)
    requires Inv(h) && Online(h, p) && session !in h.links
    ensures Inv(Connected(h, p, target, session, now).0)
  {
    var h' := Connected(h, p, target, session, now).0;
    var pruned := h'.(links := Current(h.links, now), issued := h.issued);
    ShrinkKeepsInv(h, h'.(links := h.links, issued := h.issued));
    ShrinkKeepsInv(h, pruned);
    if session in h'.links {
      LinkKeepsInv(pruned, p, h.online[target], session, now);
    }
  }

  lemma ForwardKeepsInv(h: Hub, p: Peer, m: Message)
    requires Inv(h)
    ensures Inv(Forwarded(h, p, m).0)
  {
    ShrinkKeepsInv(h, Forwarded(h, p, m).0);
  }

  lemma RouteKeepsInv(h: Hub, p: Peer, m: Message, session: string, now: int)
    requires Inv(h) && Online(h, p) && session !in h.links
    ensures Inv(Routed(h, p, m, session, now).0)
  {
    var h1 := h.(limits := Allowed(h.limits, "messages:" + h.peers[p].id, 240, now).0);
    ShrinkKeepsInv(h, h1);
    if m.Connect? {
      ConnectKeepsInv(h1, p, m.target, session, now);
    } else {
      ForwardKeepsInv(h1, p, m);
    }
  }

  lemma DepartKeepsInv(h: Hub, p: Peer)
    requires Inv(h) && Online(h, p)
    ensures Inv(Departed(h, p))
  {
    var h' := Departed(h, p);
    forall x ensures |CallsTo(h'.links, x)| <= MAX_CALLEE { FewerLinks(h'.links, h.links, x); }
    FewerLinks(h'.links, h.links, 0);
    forall s | s in h'.links
      ensures Online(h', h'.links[s].a) && Online(h', h'.links[s].b) {
      assert h'.links[s].a != p && h'.links[s].b != p;
    }
  }

  lemma StepKeepsInv(h: Hub, ev: Event)
    requires Inv(h)
    ensures Inv(Step(h, ev).0)
  {
    match ev
    case Route(p, m, session, now) =>
      if Online(h, p) && session !in h.issued { RouteKeepsInv(h, p, m, session, now); }
    case Depart(p) =>
      if Online(h, p) { DepartKeepsInv(h, p); }
    case Enter(p, who) =>
      var h' := Entered(h, p, who);
      assert forall x | Online(h, x) :: Online(h', x);
    case Knock(_, _) =>
  }

  /**
   In every reachable state each link joins two different peers that are both online, there are at most 128
   links, and nobody is the called side of more than sixteen.
   */
  lemma {:induction false} LinksAreSound(events: seq<Event>)
    ensures Inv(Run(EMPTY, events))
  {
    if events == [] {
      forall p ensures CallsTo(map[], p) == {} {}
    } else {
      LinksAreSound(events[..|events| - 1]);
      StepKeepsInv(Run(EMPTY, events[..|events| - 1]), events[|events| - 1]);
    }
  }

  /** What is delivered about a link goes to the end of it that is not `p`. */
  predicate ToOtherEnd(h: Hub, p: Peer, d: Delivery) {
    d.1.Described? || d.1.Closed? ==>
      && d.1.session in h.links && Joins(h.links[d.1.session], p) && d.0 == Other(h.links[d.1.session], p)
  }

  lemma ForwardsToOtherEnd(h: Hub, p: Peer, m: Message)
    ensures forall d | d in Forwarded(h, p, m).1 :: ToOtherEnd(h, p, d)
  {
  }

  lemma ConnectTellsNoOther(h: Hub, p: Peer, target: string, session: string, now: int)
    requires Online(h, p)
    ensures forall d | d in Connected(h, p, target, session, now).1 :: !d.1.Described? && !d.1.Closed?
  {
  }

  lemma RoutesToOtherEnd(h: Hub, p: Peer, m: Message, session: string, now: int)
    requires Online(h, p)
    ensures forall d | d in Routed(h, p, m, session, now).1 :: ToOtherEnd(h, p, d)
  {
    var h1 := h.(limits := Allowed(h.limits, "messages:" + h.peers[p].id, 240, now).0);
    if m.Connect? {
      ConnectTellsNoOther(h1, p, m.target, session, now);
    } else {
      ForwardsToOtherEnd(h1, p, m);
    }
  }

  lemma OtherIsOnline(h: Hub, s: string, p: Peer)
    requires Inv(h) && s in h.links && Joins(h.links[s], p)
    ensures Other(h.links[s], p) != p && Online(h, Other(h.links[s], p))
  {
  }

  /**
   An offer, an answer or a close, also one that a departure brings about, reaches only the other end of a link its
   sender belongs to, and that end is online; no link ends with a departure without its other end being told.
   */
  lemma DeliveredToOtherEnd(h: Hub, ev: Event)
    requires Inv(h)
    ensures forall d | d in Step(h, ev).1 && (d.1.Described? || d.1.Closed?) ::
      && (ev.Route? || ev.Depart?) && ToOtherEnd(h, ev.p, d) && d.0 != ev.p && Online(h, d.0)
    ensures ev.Depart? ==> forall s | s in h.links && s !in Step(h, ev).0.links ::
      (Other(h.links[s], ev.p), Closed(s)) in Step(h, ev).1
  {
    forall d | d in Step(h, ev).1 && (d.1.Described? || d.1.Closed?)
      ensures (ev.Route? || ev.Depart?) && ToOtherEnd(h, ev.p, d) && d.0 != ev.p && Online(h, d.0)
    {
      if ev.Route? { RoutesToOtherEnd(h, ev.p, ev.m, ev.session, ev.now); }
      assert ToOtherEnd(h, ev.p, d);
      OtherIsOnline(h, d.1.session, ev.p);
    }
  }

  // ---------------------------------------------------------------- what each event does

  /** A call under this key would be counted within its maximum. */
  predicate Within(h: Hub, key: string, max: int, now: int) {
    Next(h.limits, key, now).n <= max
  }

  /** Counting under one key does not change what another key may do, even when stale keys are forgotten. */
  lemma OtherKeysCount(limits: Windows, key: string, max: int, other: string, now: int)
    requires key != other
    ensures Next(Allowed(limits, key, max, now).0, other, now) == Next(limits, other, now)
  {
  }

  /** The four limits of a connect are independent of each other. */
  lemma RatesApart(h: Hub, p: Peer, target: string, now: int)
    requires Online(h, p)
    ensures var limits := Allowed(h.limits, "messages:" + h.peers[p].id, 240, now).0;
      ConnectAllowed(limits, h.peers[p], target, now).1 <==>
        && Within(h, "connect:" + h.peers[p].id, 12, now) && Within(h, "source:" + h.peers[p].ip, 30, now)
        && Within(h, "target:" + target, 30, now)
  {
    var m, c := "messages:" + h.peers[p].id, "connect:" + h.peers[p].id;
    var s, t := "source:" + h.peers[p].ip, "target:" + target;
    assert m[0] == 'm' && c[0] == 'c' && s[0] == 's' && t[0] == 't';
    var l0 := Allowed(h.limits, m, 240, now).0;
    var l1 := Allowed(l0, c, 12, now).0;
    OtherKeysCount(h.limits, m, 240, c, now);
    OtherKeysCount(h.limits, m, 240, s, now);
    OtherKeysCount(h.limits, m, 240, t, now);
    OtherKeysCount(l0, c, 12, s, now);
    OtherKeysCount(l0, c, 12, t, now);
    OtherKeysCount(l1, s, 30, t, now);
  }

  /** A message that is looked at: its sender is online and within its message limit. */
  predicate Heard(h: Hub, ev: Event) {
    && ev.Route? && Online(h, ev.p) && ev.session !in h.issued
    && ev.m != Pong && Within(h, "messages:" + h.peers[ev.p].id, 240, ev.now)
  }

  /** A connect that comes as far as looking at the links. */
  predicate Reaches(h: Hub, ev: Event) {
    && Heard(h, ev) && ev.m.Connect?
    && Within(h, "connect:" + h.peers[ev.p].id, 12, ev.now) && Within(h, "source:" + h.peers[ev.p].ip, 30, ev.now)
    && Within(h, "target:" + ev.m.target, 30, ev.now)
    && ev.m.target in h.online && h.online[ev.m.target] != ev.p
  }

  /** Neither the called side nor the server holds its limit of links of the last day. */
  predicate Room(h: Hub, q: Peer, now: int) {
    && |set s | s in h.links && now - h.links[s].created <= DAY && Joins(h.links[s], q)| < MAX_CALLEE
    && |set s | s in h.links && now - h.links[s].created <= DAY| < MAX_LINKS
  }

  predicate Links(h: Hub, ev: Event) {
    Reaches(h, ev) && Room(h, h.online[ev.m.target], ev.now)
  }

  lemma RoomIsCounted(links: map<string, Link>, q: Peer, now: int)
    ensures LinksOf(Current(links, now), q)
         == set s | s in links && now - links[s].created <= DAY && Joins(links[s], q)
    ensures |Current(links, now)| == |set s | s in links && now - links[s].created <= DAY|
  {
    var live := Current(links, now);
    assert live.Keys == set s | s in links && now - links[s].created <= DAY;
    assert |live| == |live.Keys|;
  }

  /** A message about a session acts on a link its sender is an end of. */
  predicate Speaks(h: Hub, ev: Event, session: string) {
    Heard(h, ev) && session in h.links && Joins(h.links[session], ev.p)
  }

  predicate Parts(h: Hub, ev: Event, session: string) {
    Speaks(h, ev, session) && ev.m == Close(session)
  }

  /** What one peer is to be told by an event, and why. */
  predicate Told(h: Hub, ev: Event, d: Delivery) {
    match d.1
    case Described(s) =>
      && Speaks(h, ev, s) && ev.m.Description? && ev.m.session == s && 0 < ev.m.sdp < MAX_SDP
      && d.0 == Other(h.links[s], ev.p)
    case Closed(s) =>
      && (Parts(h, ev, s) || (ev.Depart? && Online(h, ev.p) && s in h.links && Joins(h.links[s], ev.p)))
      && d.0 == Other(h.links[s], ev.p)
    case Linked(s, other, caller) =>
      && Links(h, ev) && s == ev.session
      && (if caller then d.0 == ev.p && other == h.online[ev.m.target]
          else d.0 == h.online[ev.m.target] && other == ev.p)
    case Refused => Heard(h, ev) && ev.m.Connect? && !Links(h, ev) && d.0 == ev.p
    case Disconnected =>
      && ev.Route? && Online(h, ev.p) && ev.session !in h.issued && ev.m != Pong && d.0 == ev.p
      && !Within(h, "messages:" + h.peers[ev.p].id, 240, ev.now)
  }

  /** The state a heard message is acted on in: its own call has been counted. */
  function Counted(h: Hub, p: Peer, now: int): Hub
    requires Online(h, p)
  {
    h.(limits := Allowed(h.limits, "messages:" + h.peers[p].id, 240, now).0)
  }

  lemma HeardGoesOn(h: Hub, ev: Event)
    requires Heard(h, ev)
    ensures ev.m.Connect? ==>
      var (h', out) := Connected(Counted(h, ev.p, ev.now), ev.p, ev.m.target, ev.session, ev.now);
      Step(h, ev) == (h', Elements(out))
    ensures !ev.m.Connect? ==>
      var (h', out) := Forwarded(Counted(h, ev.p, ev.now), ev.p, ev.m);
      Step(h, ev) == (h', Elements(out))
  {
  }

  lemma ConnectLinks(h: Hub, ev: Event)
    requires Links(h, ev)
    ensures Step(h, ev).0.links == Current(h.links, ev.now)[ev.session := Link(ev.p, h.online[ev.m.target], ev.now)]
    ensures Step(h, ev).1 == Elements([(ev.p, Linked(ev.session, h.online[ev.m.target], true)),
                                       (h.online[ev.m.target], Linked(ev.session, ev.p, false))])
  {
    HeardGoesOn(h, ev);
    RatesApart(h, ev.p, ev.m.target, ev.now);
    RoomIsCounted(h.links, h.online[ev.m.target], ev.now);
  }

  lemma ConnectRefuses(h: Hub, ev: Event)
    requires Heard(h, ev) && ev.m.Connect? && !Links(h, ev)
    ensures Step(h, ev).0.links == if Reaches(h, ev) then Current(h.links, ev.now) else h.links
    ensures Step(h, ev).1 == Elements([(ev.p, Refused)])
  {
    HeardGoesOn(h, ev);
    RatesApart(h, ev.p, ev.m.target, ev.now);
    if Reaches(h, ev) { RoomIsCounted(h.links, h.online[ev.m.target], ev.now); }
  }

  lemma ConnectTells(h: Hub, ev: Event, d: Delivery)
    requires Heard(h, ev) && ev.m.Connect?
    ensures d in Step(h, ev).1 <==> Told(h, ev, d)
  {
    if Links(h, ev) { ConnectLinks(h, ev); } else { ConnectRefuses(h, ev); }
  }

  lemma MessageTells(h: Hub, ev: Event, d: Delivery)
    requires Heard(h, ev) && !ev.m.Connect?
    ensures d in Step(h, ev).1 <==> Told(h, ev, d)
  {
    HeardGoesOn(h, ev);
  }

  lemma UnheardTells(h: Hub, ev: Event, d: Delivery)
    requires ev.Route? && !Heard(h, ev)
    ensures d in Step(h, ev).1 <==> Told(h, ev, d)
  {
  }

  lemma DepartureTells(h: Hub, ev: Event, d: Delivery)
    requires ev.Depart? && Online(h, ev.p)
    ensures d in Step(h, ev).1 <==> Told(h, ev, d)
  {
    assert d in Farewells(h, ev.p) <==>
      exists s :: s in LinksOf(h.links, ev.p) && d == (Other(h.links[s], ev.p), Closed(s));
  }

  /**
   Exactly who is told what by an event: an offer or answer of an end of a live link reaches the other end, a close
   and a departure reach the other ends, a connect tells both ends of the new link or refuses the caller, and a
   sender over its message limit is disconnected; nobody is told anything else.
   */
  lemma ToldExactly(h: Hub, ev: Event)
    requires Inv(h)
    ensures forall d :: d in Step(h, ev).1 <==> Told(h, ev, d)
  {
    forall d ensures d in Step(h, ev).1 <==> Told(h, ev, d) {
      if ev.Route? {
        if !Heard(h, ev) { UnheardTells(h, ev, d); }
        else if ev.m.Connect? { ConnectTells(h, ev, d); }
        else { MessageTells(h, ev, d); }
      } else if ev.Depart? && Online(h, ev.p) {
        DepartureTells(h, ev, d);
      } else {
        assert Step(h, ev).1 == {};
      }
    }
  }

  /** A link ends with a close of one end, with the departure of one, or as too old when links are counted. */
  predicate Drops(h: Hub, ev: Event, s: string)
    requires s in h.links
  {
    || Parts(h, ev, s)
    || (ev.Depart? && Online(h, ev.p) && Joins(h.links[s], ev.p))
    || (Reaches(h, ev) && ev.now - h.links[s].created > DAY)
  }

  /** The links after an event: exactly those that are not dropped, as they were, and the one a connect makes. */
  ghost predicate LinkedAs(h: Hub, ev: Event, links: map<string, Link>) {
    && (forall s :: s in links <==> (s in h.links && !Drops(h, ev, s)) || (Links(h, ev) && s == ev.session))
    && (forall s | s in h.links && s in links :: links[s] == h.links[s])
    && (Links(h, ev) ==> links[ev.session] == Link(ev.p, h.online[ev.m.target], ev.now))
  }

  lemma MessageLinks(h: Hub, ev: Event)
    requires Heard(h, ev) && !ev.m.Connect?
    ensures LinkedAs(h, ev, Step(h, ev).0.links)
  {
    HeardGoesOn(h, ev);
  }

  lemma ConnectLinked(h: Hub, ev: Event)
    requires Inv(h) && Heard(h, ev) && ev.m.Connect?
    ensures LinkedAs(h, ev, Step(h, ev).0.links)
  {
    if Links(h, ev) { ConnectLinks(h, ev); } else { ConnectRefuses(h, ev); }
  }

  lemma DepartureLinks(h: Hub, ev: Event)
    requires ev.Depart? && Online(h, ev.p)
    ensures LinkedAs(h, ev, Step(h, ev).0.links)
  {
  }

  lemma OthersLinks(h: Hub, ev: Event)
    requires !Heard(h, ev) && !(ev.Depart? && Online(h, ev.p))
    ensures LinkedAs(h, ev, Step(h, ev).0.links)
  {
    assert Step(h, ev).0.links == h.links;
  }

  lemma LinkedExactly(h: Hub, ev: Event)
    requires Inv(h)
    ensures LinkedAs(h, ev, Step(h, ev).0.links)
  {
    if ev.Depart? && Online(h, ev.p) { DepartureLinks(h, ev); }
    else if !Heard(h, ev) { OthersLinks(h, ev); }
    else if ev.m.Connect? { ConnectLinked(h, ev); }
    else { MessageLinks(h, ev); }
  }

  lemma ConnectedStays(h: Hub, p: Peer, target: string, session: string, now: int)
    requires Online(h, p)
    ensures var h' := Connected(h, p, target, session, now).0; h'.online == h.online && h'.peers == h.peers
  {
  }

  /** No message changes who is online. */
  lemma OnlineStays(h: Hub, p: Peer, m: Message, session: string, now: int)
    requires Online(h, p)
    ensures var h' := Routed(h, p, m, session, now).0; h'.online == h.online && h'.peers == h.peers
  {
    if m.Connect? { ConnectedStays(Counted(h, p, now), p, m.target, session, now); }
  }

  lemma DepartureTakes(h: Hub, p: Peer, x: Peer)
    requires Inv(h) && Online(h, p)
    ensures Online(Departed(h, p), x) <==> Online(h, x) && x != p
  {
    var id := h.peers[p].id;
    assert Departed(h, p).online == h.online - {id};
    if x in h.peers && h.peers[x].id == id && Online(h, x) { assert x == h.online[id]; }
  }

  /** Exactly the connections that entered under a free identifier and have not left are online. */
  lemma OnlineExactly(h: Hub, ev: Event, x: Peer)
    requires Inv(h)
    ensures Online(Step(h, ev).0, x) <==>
      || (Online(h, x) && ev != Depart(x))
      || (ev.Enter? && ev.p == x && x !in h.peers && ev.who.id !in h.online)
  {
    if ev.Route? {
      if Online(h, ev.p) && ev.session !in h.issued { OnlineStays(h, ev.p, ev.m, ev.session, ev.now); }
    } else if ev.Depart? {
      if Online(h, ev.p) { DepartureTakes(h, ev.p, x); }
    }
  }

  /** A connection that has left never comes back, so no link ever names it again. */
  lemma {:induction false} NoLinkSurvivesDeparture(before: seq<Event>, p: Peer, after: seq<Event>)
    requires Online(Run(EMPTY, before), p)
    ensures var h := Run(Step(Run(EMPTY, before), Depart(p)).0, after);
      Inv(h) && p in h.peers && !Online(h, p) && LinksOf(h.links, p) == {}
  {
    var start := Step(Run(EMPTY, before), Depart(p)).0;
    LinksAreSound(before);
    StepKeepsInv(Run(EMPTY, before), Depart(p));
    if after == [] {
    } else {
      var k := |after| - 1;
      NoLinkSurvivesDeparture(before, p, after[..k]);
      StepKeepsInv(Run(start, after[..k]), after[k]);
      StaysAway(Run(start, after[..k]), after[k], p);
    }
    var h := Run(start, after);
    forall s | s in h.links ensures h.links[s].a != p && h.links[s].b != p {
      assert Online(h, h.links[s].a) && Online(h, h.links[s].b);
    }
  }

  lemma StaysAway(h: Hub, ev: Event, p: Peer)
    requires Inv(h) && p in h.peers && !Online(h, p)
    ensures var h' := Step(h, ev).0; p in h'.peers && !Online(h', p)
  {
  }

  /** A relay credential names a session, an identity and an expiry (server/relay.go), checked on every packet. */
  predicate TurnAlive(h: Hub, session: string, id: string, expiry: int, now: int) {
    && session in h.links && now < expiry
    && h.links[session].a in h.peers && h.links[session].b in h.peers
    && (h.peers[h.links[session].a].id == id || h.peers[h.links[session].b].id == id)
  }

  /** A credential works exactly until it expires, for an online endpoint of its own live link. */
  lemma RelayNeedsLiveLink(h: Hub, session: string, id: string, expiry: int, now: int)
    requires Inv(h)
    ensures TurnAlive(h, session, id, expiry, now) <==>
      now < expiry && session in h.links && id in h.online && Joins(h.links[session], h.online[id])
  {
  }

  lemma RoutedNames(h: Hub, p: Peer, m: Message, session: string, now: int)
    requires Online(h, p)
    ensures var h' := Routed(h, p, m, session, now).0;
      && h.issued <= h'.issued && forall s | s in h'.links :: s in h.links || s == session
  {
  }

  /** A session that has ended never comes back. */
  lemma EndedStaysEnded(h: Hub, ev: Event, session: string)
    requires session in h.issued && session !in h.links
    ensures session in Step(h, ev).0.issued && session !in Step(h, ev).0.links
  {
    if ev.Route? && Online(h, ev.p) && ev.session !in h.issued { RoutedNames(h, ev.p, ev.m, ev.session, ev.now); }
  }

  lemma {:induction false} EndedForever(h: Hub, events: seq<Event>, session: string)
    requires session in h.issued && session !in h.links
    ensures session in Run(h, events).issued && session !in Run(h, events).links
  {
    if events == [] {
    } else {
      EndedForever(h, events[..|events| - 1], session);
      EndedStaysEnded(Run(h, events[..|events| - 1]), events[|events| - 1], session);
    }
  }

  /** A close that is delivered, or a departure of either end, ends the session. */
  lemma CloseEnds(h: Hub, ev: Event, session: string, to: Peer)
    requires Inv(h) && session in h.links
    requires (to, Closed(session)) in Step(h, ev).1
    ensures session in Step(h, ev).0.issued && session !in Step(h, ev).0.links
  {
    if ev.Route? {
      var h1 := h.(limits := Allowed(h.limits, "messages:" + h.peers[ev.p].id, 240, ev.now).0);
      if ev.m.Connect? { ConnectTellsNoOther(h1, ev.p, ev.m.target, ev.session, ev.now); }
    }
  }

  /**
   Over every run: once a close of a session has been delivered, or either of its ends has left, no relay credential
   that names the session works in any later state, for whatever identity and expiry.
   */
  lemma CredentialStaysDead(before: seq<Event>, ev: Event, after: seq<Event>, session: string, id: string, expiry: int,
                            now: int)
    ensures var h := Run(EMPTY, before);
      Ends(h, ev, session) ==> !TurnAlive(Run(Step(h, ev).0, after), session, id, expiry, now)
  {
    var h := Run(EMPTY, before);
    LinksAreSound(before);
    if Ends(h, ev, session) {
      var to: Peer;
      if ev.Depart? && Online(h, ev.p) && Joins(h.links[session], ev.p) {
        to := Other(h.links[session], ev.p);
      } else {
        to :| (to, Closed(session)) in Step(h, ev).1;
      }
      CloseEnds(h, ev, session, to);
      EndedForever(Step(h, ev).0, after, session);
    }
  }

  /** A close of a live session is delivered, or one of its ends leaves. */
  ghost predicate Ends(h: Hub, ev: Event, session: string) {
    session in h.links
    && ( || (exists to :: (to, Closed(session)) in Step(h, ev).1)
         || (ev.Depart? && Online(h, ev.p) && Joins(h.links[session], ev.p)))
  }
}
