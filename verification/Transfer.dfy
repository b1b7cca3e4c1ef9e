/**
 The whole file-transfer protocol (app/engine/files.go): a sender and a receiver joined by two reliable
 FIFO channels, with the eight-entry acknowledgement buffer that drops when it is full.

 The sender's goroutine is cut at its channel operations.  Everything that can go wrong is an event that
 may come at any time: `Abort` stands for a cancel, a shutdown, a timed-out wait, a read error or a failed
 send; replies may be lost; the environment answers every authorisation, slot, write, flush and move.
 */
module Transfer {
  import opened Prelude
  import opened Uploads
  import opened Receiver

  const ACK_BUFFER := 8
  const SEND_CHUNK := 16384

  datatype Item = Item(name: string, content: Bytes)

  /** A commit: the transfer it was made for, what the receiver held, and where it was stored. */
  datatype Record = Record(transfer: string, item: Item, stored: string)

  /** What was asked for, and the name and bytes read for each file in turn. */
  datatype Done = Done(names: seq<string>, read: seq<Item>)

  datatype Phase =
    | Idle
    | AwaitBatch
    | NextFile
    | AwaitReady
    | Streaming
    | AwaitSaved

  /** `body` is what has been read of the current file, `sent` the files acknowledged as saved. */
  datatype Sender = Sender(phase: Phase, transfer: string, names: seq<string>, body: Bytes, sent: seq<Item>)

  datatype Net = Net(
    s: Sender,
    up: seq<Packet>,   // in flight to the receiver
    r: State,
    down: seq<Ack>,    // in flight to the sender
    acks: seq<Ack>,    // delivered, not yet taken
    dir: Directory,
    commits: seq<Record>,
    issued: set<string>,               // transfer identifiers ever used
    finished: map<string, Done>)  // transfers whose status was success

  datatype Event =
    | Start(names: seq<string>, total: int, transfer: string, len: nat)
    | OpenFile(size: int, len: nat)
    | ReadChunk(data: Bytes)
    | EndOfFile
    | TakeAck(tell: bool)
    | Abort(tell: bool)
    | DeliverAck
    | Handle(slotFree: bool, e: Env, replyOk: bool)
    | Fire(path: string, now: int, replyOk: bool)
    | Shut
    | OtherFile(path: string, content: Bytes)

  function Init(dir: Directory): Net {
    Net(Sender(Idle, "", [], [], []), [], FRESH, [], [], dir, [], {""}, map[])
  }

  function BatchPacket(s: Sender, total: int, len: nat): Packet {
    Header(len, Some(Meta(s.transfer, "batch", "", 0, total, |s.names|)))
  }

  function BeginPacket(s: Sender, size: int, len: nat): Packet
    requires |s.sent| < |s.names|
  {
    Header(len, Some(Meta(s.transfer, "begin", s.names[|s.sent|], size, 0, 0)))
  }

  /** A failed wait tells the receiver, except while the batch itself is unanswered. */
  function GiveUp(n: Net, tell: bool): Net {
    n.(s := n.s.(phase := Idle),
       up := if tell && n.s.phase != AwaitBatch then n.up + [Cancel] else n.up)
  }

  predicate Awaiting(s: Sender) {
    s.phase.AwaitBatch? || s.phase.AwaitReady? || s.phase.AwaitSaved?
  }

  function Expected(s: Sender): Kind
    requires Awaiting(s)
  {
    if s.phase.AwaitBatch? then BatchReady else if s.phase.AwaitReady? then Ready else Saved
  }

  function Acknowledged(n: Net): Net
    requires Awaiting(n.s)
  {
    if n.s.phase.AwaitBatch? then n.(s := n.s.(phase := NextFile))
    else if n.s.phase.AwaitReady? then n.(s := n.s.(phase := Streaming))
    else if |n.s.sent| < |n.s.names| then
      var sent := n.s.sent + [Item(n.s.names[|n.s.sent|], n.s.body)];
      if |sent| < |n.s.names| then n.(s := n.s.(phase := NextFile, sent := sent))
      else n.(s := n.s.(phase := Idle, sent := sent), finished := n.finished[n.s.transfer := Done(n.s.names, sent)])
    else n
  }

  function Replied(n: Net, out: Outcome, replyOk: bool): Net {
    n.(r := out.state,
       down := if out.reply.Some? && replyOk then n.down + [Ack(out.reply.value, out.state.transfer)] else n.down)
  }

  function Handled(n: Net, p: Packet, slotFree: bool, e: Env, replyOk: bool): Net {
    var out := Receive(n.r, n.dir, slotFree, p, e);
    Replied(n, out, replyOk).(
      dir := Placed(n.dir, n.r, out.stored),
      commits := if out.stored.Some? && n.r.file.Some?
                 then n.commits + [Record(n.r.transfer, Item(n.r.name, n.r.file.value.content), out.stored.value)]
                 else n.commits)
  }

  function Step(n: Net, ev: Event): Net {
    match ev
    case Start(names, total, transfer, len) =>
      if n.s.phase != Idle || !(1 <= |names| <= 100) || transfer in n.issued || |transfer| != TRANSFER_ID then n
      else
        var s := Sender(AwaitBatch, transfer, names, [], []);
        n.(s := s, up := n.up + [BatchPacket(s, total, len)], issued := n.issued + {transfer})
    case OpenFile(size, len) =>
      if n.s.phase != NextFile || |n.s.sent| >= |n.s.names| then n
      else
        n.(s := n.s.(phase := AwaitReady, body := []), acks := [], up := n.up + [BeginPacket(n.s, size, len)])
    case ReadChunk(data) =>
      if n.s.phase != Streaming || !(1 <= |data| <= SEND_CHUNK) then n
      else n.(s := n.s.(body := n.s.body + data), up := n.up + [Chunk(data)])
    case EndOfFile =>
      if n.s.phase != Streaming then n else n.(s := n.s.(phase := AwaitSaved), up := n.up + [Finish])
    case TakeAck(tell) =>
      if !Awaiting(n.s) || n.acks == [] then n
      else
        var a, rest := n.acks[0], n.(acks := n.acks[1..]);
        if a.transfer != n.s.transfer then rest
        else if a.kind != Expected(n.s) then GiveUp(rest, tell)
        else Acknowledged(rest)
    case Abort(tell) => if n.s.phase == Idle then n else GiveUp(n, tell)
    case DeliverAck =>
      if n.down == [] then n
      else n.(down := n.down[1..], acks := if |n.acks| < ACK_BUFFER then n.acks + [n.down[0]] else n.acks)
    case Handle(slotFree, e, replyOk) =>
      if n.up == [] then n else Handled(n.(up := n.up[1..]), n.up[0], slotFree, e, replyOk)
    case Fire(path, now, replyOk) => Replied(n, Expire(n.r, path, now), replyOk)
    case Shut => n.(r := Cleaned(n.r))
    case OtherFile(path, content) => if path in n.dir then n else n.(dir := n.dir[path := content])
  }

  function Run(n: Net, events: seq<Event>): Net {
    if events == [] then n else Step(Run(n, events[..|events| - 1]), events[|events| - 1])
  }

  // ---------------------------------------------------------------- the invariant

  /** The kinds of the acknowledgements of one transfer, oldest first. */
  function OnlyId(acks: seq<Ack>, id: string): seq<Kind> {
    if acks == [] then []
    else (if acks[0].transfer == id then [acks[0].kind] else []) + OnlyId(acks[1..], id)
  }

  function CommitsOf(commits: seq<Record>, id: string): seq<Item> {
    if commits == [] then []
    else
      var k := |commits| - 1;
      CommitsOf(commits[..k], id) + if commits[k].transfer == id then [commits[k].item] else []
  }

  function Mine(n: Net): seq<Kind> {
    OnlyId(n.acks + n.down, n.s.transfer)
  }

  function Pending(up: seq<Packet>): Bytes {
    if up == [] then []
    else (if up[0].Chunk? then up[0].data else []) + Pending(up[1..])
  }

  ghost predicate AllChunks(up: seq<Packet>) {
    forall p | p in up :: p.Chunk?
  }

  ghost predicate NoHeader(up: seq<Packet>, id: string) {
    forall p | p in up && p.Header? && p.meta.Some? :: p.meta.value.transfer != id
  }

  /** What a file that is still open says about the bytes on their way. */
  ghost predicate InStep(n: Net, up: seq<Packet>)
    requires |n.s.sent| < |n.s.names|
  {
    n.r.file.Some? ==>
      && n.r.transfer == n.s.transfer && n.r.name == n.s.names[|n.s.sent|]
      && n.r.file.value.content + Pending(up) == n.s.body
      && Mine(n) == []
  }

  ghost predicate PhaseInv(n: Net)
    requires |n.s.sent| <= |n.s.names|
  {
    var done := CommitsOf(n.commits, n.s.transfer);
    match n.s.phase
    case Idle => true
    case AwaitBatch =>
      && n.s.sent == done == []
      && if n.up != []
         then
           && n.r.transfer != n.s.transfer && Mine(n) == []
           && NoHeader(n.up[..|n.up| - 1], n.s.transfer)
           && exists total, len :: n.up[|n.up| - 1] == BatchPacket(n.s, total, len)
         else
           && |Mine(n)| <= 1
           && (Mine(n) != [] ==> n.r.transfer == n.s.transfer)
           && (n.r.transfer == n.s.transfer ==> n.r.file.None?)
    case NextFile =>
      n.up == [] && n.r.file.None? && Mine(n) == [] && done == n.s.sent
    case AwaitReady =>
      && done == n.s.sent && n.s.body == [] && |n.s.sent| < |n.s.names|
      && if n.up != []
         then
           && |n.up| == 1 && n.r.file.None? && Mine(n) == []
           && exists size, len :: n.up[0] == BeginPacket(n.s, size, len)
         else
           && Saved !in Mine(n)
           && (n.r.file.Some? ==>
                 && n.r.transfer == n.s.transfer && n.r.name == n.s.names[|n.s.sent|]
                 && n.r.file.value.content == [] && (Mine(n) == [] || Mine(n) == [Ready]))
    case Streaming =>
      && done == n.s.sent && |n.s.sent| < |n.s.names| && Saved !in Mine(n)
      && AllChunks(n.up) && InStep(n, n.up)
    case AwaitSaved =>
      && |n.s.sent| < |n.s.names|
      && if n.up != []
         then
           && done == n.s.sent && Saved !in Mine(n)
           && n.up[|n.up| - 1] == Finish && AllChunks(n.up[..|n.up| - 1]) && InStep(n, n.up[..|n.up| - 1])
         else
           && n.r.file.None?
           && ( || (done == n.s.sent && Saved !in Mine(n))
                || (done == n.s.sent + [Item(n.s.names[|n.s.sent|], n.s.body)]
                    && (Mine(n) == [] || Mine(n) == [Saved])))
  }

  ghost predicate IdsIssued(n: Net) {
    && n.r.transfer in n.issued && n.finished.Keys <= n.issued
    && (forall a | a in n.acks + n.down :: a.transfer in n.issued)
    && (forall p | p in n.up && p.Header? :: p.meta.Some? && p.meta.value.transfer in n.issued)
    && (forall c | c in n.commits :: c.transfer in n.issued)
  }

  ghost predicate FinishedInv(n: Net) {
    forall id | id in n.finished ::
      && CommitsOf(n.commits, id) == n.finished[id].read
      && |n.finished[id].read| == |n.finished[id].names|
      && (forall j | 0 <= j < |n.finished[id].read| :: n.finished[id].read[j].name == n.finished[id].names[j])
      && NoHeader(n.up, id)
      && (n.r.file.Some? ==> n.r.transfer != id)
  }

  ghost predicate SenderInv(n: Net) {
    && |n.s.sent| <= |n.s.names|
    && (forall j | 0 <= j < |n.s.sent| :: n.s.sent[j].name == n.s.names[j])
    && (n.s.phase != Idle ==>
          && n.s.transfer in n.issued && n.s.transfer !in n.finished && |n.s.transfer| == TRANSFER_ID)
    && (n.s.phase == NextFile ==> |n.s.sent| < |n.s.names|)
    && (n.s.phase != Idle ==> |n.s.names| > 0)
  }

  ghost predicate Inv(n: Net) {
    SenderInv(n) && IdsIssued(n) && FinishedInv(n) && PhaseInv(n)
  }

  // ---------------------------------------------------------------- lists

  lemma {:induction false} OnlyIdAppend(a: seq<Ack>, b: seq<Ack>, id: string)
    ensures OnlyId(a + b, id) == OnlyId(a, id) + OnlyId(b, id)
  {
    if a == [] {
      assert a + b == b;
    } else {
      assert (a + b)[1..] == a[1..] + b;
      OnlyIdAppend(a[1..], b, id);
      var head := if a[0].transfer == id then [a[0].kind] else [];
      assert head + (OnlyId(a[1..], id) + OnlyId(b, id)) == head + OnlyId(a[1..], id) + OnlyId(b, id);
    }
  }

  lemma {:induction false} OnlyIdNone(a: seq<Ack>, id: string)
    requires forall x | x in a :: x.transfer != id
    ensures OnlyId(a, id) == []
  {
    if a == [] {
    } else {
      OnlyIdNone(a[1..], id);
    }
  }

  lemma {:induction false} PendingAppend(a: seq<Packet>, p: Packet)
    ensures Pending(a + [p]) == Pending(a) + if p.Chunk? then p.data else []
  {
    if a == [] {
      assert a + [p] == [p];
    } else {
      assert (a + [p])[1..] == a[1..] + [p];
      PendingAppend(a[1..], p);
      var head, last := if a[0].Chunk? then a[0].data else [], if p.Chunk? then p.data else [];
      assert head + (Pending(a[1..]) + last) == head + Pending(a[1..]) + last;
    }
  }

  lemma {:induction false} CommitsNone(c: seq<Record>, id: string)
    requires forall x | x in c :: x.transfer != id
    ensures CommitsOf(c, id) == []
  {
    if c == [] {
    } else {
      CommitsNone(c[..|c| - 1], id);
    }
  }

  // ---------------------------------------------------------------- every step keeps the invariant

  lemma StartKeeps(n: Net, ev: Event)
    requires Inv(n) && ev.Start?
    ensures Inv(Step(n, ev))
  {
    var n' := Step(n, ev);
    if n' != n {
      OnlyIdNone(n.acks + n.down, ev.transfer);
      CommitsNone(n.commits, ev.transfer);
      assert n'.up[..|n'.up| - 1] == n.up;
      assert n'.up[|n'.up| - 1] == BatchPacket(n'.s, ev.total, ev.len);
    }
  }

  lemma OpenKeeps(n: Net, ev: Event)
    requires Inv(n) && ev.OpenFile?
    ensures Inv(Step(n, ev))
  {
    var n' := Step(n, ev);
    if n' != n {
      OnlyIdAppend(n.acks, n.down, n.s.transfer);
      assert [] + n.down == n.down;
      assert n'.up == [BeginPacket(n'.s, ev.size, ev.len)];
    }
  }

  lemma ChunkKeeps(n: Net, ev: Event)
    requires Inv(n) && ev.ReadChunk?
    ensures Inv(Step(n, ev))
  {
    PendingAppend(n.up, Chunk(ev.data));
  }

  lemma EndOfFileKeeps(n: Net, ev: Event)
    requires Inv(n) && ev.EndOfFile?
    ensures Inv(Step(n, ev))
  {
    if n.s.phase == Streaming {
      var n' := Step(n, ev);
      assert n'.up == n.up + [Finish] && n'.up[..|n'.up| - 1] == n.up;
      assert InStep(n', n.up) && Mine(n') == Mine(n);
    }
  }

  lemma GiveUpKeeps(n: Net, tell: bool)
    requires SenderInv(n) && IdsIssued(n) && FinishedInv(n)
    ensures Inv(GiveUp(n, tell))
  {
  }

  /** Taking an acknowledgement removes it from what is under way; only one of this transfer moves the sender. */
  lemma TakeKeeps(n: Net, ev: Event)
    requires Inv(n) && ev.TakeAck?
    ensures Inv(Step(n, ev))
  {
    if Awaiting(n.s) && n.acks != [] {
      var a, rest := n.acks[0], n.(acks := n.acks[1..]);
      assert (n.acks + n.down)[1..] == rest.acks + rest.down;
      assert IdsIssued(rest) && FinishedInv(rest);
      if a.transfer != n.s.transfer {
        assert Mine(rest) == Mine(n);
      } else if a.kind != Expected(n.s) {
        GiveUpKeeps(rest, ev.tell);
      } else {
        assert Mine(n) == [a.kind] + Mine(rest);
        AcknowledgedKeeps(n, rest, a.kind);
      }
    }
  }

  /** The awaited acknowledgement was the only one of this transfer, and the sender moves on. */
  ghost predicate Took(n: Net, rest: Net, kind: Kind) {
    && Inv(n) && Awaiting(n.s) && kind == Expected(n.s)
    && rest == n.(acks := rest.acks) && IdsIssued(rest) && FinishedInv(rest)
    && Mine(n) == [kind] + Mine(rest)
  }

  lemma BatchAcknowledged(n: Net, rest: Net)
    requires Took(n, rest, BatchReady) && n.s.phase.AwaitBatch?
    ensures Inv(Acknowledged(rest))
  {
    assert |Mine(n)| == 1 + |Mine(rest)|;
    assert n.up == [] && Mine(rest) == [];
    assert Mine(Acknowledged(rest)) == Mine(rest);
  }

  lemma ReadyAcknowledged(n: Net, rest: Net)
    requires Took(n, rest, Ready) && n.s.phase.AwaitReady?
    ensures Inv(Acknowledged(rest))
  {
    assert |Mine(n)| == 1 + |Mine(rest)| && Mine(n) != [];
    assert forall k | k in Mine(rest) :: k in Mine(n);
    assert n.up == [] && Mine(Acknowledged(rest)) == Mine(rest);
  }

  /** The saved acknowledgement only comes after the commit, and as the last one. */
  lemma SavedFacts(n: Net, rest: Net)
    requires Took(n, rest, Saved) && n.s.phase.AwaitSaved?
    ensures n.up == [] && n.r.file.None? && Mine(rest) == [] && |n.s.sent| < |n.s.names|
    ensures CommitsOf(n.commits, n.s.transfer) == n.s.sent + [Item(n.s.names[|n.s.sent|], n.s.body)]
  {
    assert Mine(n)[0] == Saved;
    assert |Mine(n)| == 1 + |Mine(rest)|;
  }

  lemma SavedAcknowledged(n: Net, rest: Net)
    requires Took(n, rest, Saved) && n.s.phase.AwaitSaved?
    ensures Inv(Acknowledged(rest))
  {
    SavedFacts(n, rest);
    var n' := Acknowledged(rest);
    assert Mine(n') == Mine(rest);
    assert CommitsOf(n'.commits, n'.s.transfer) == n'.s.sent;
  }

  lemma AcknowledgedKeeps(n: Net, rest: Net, kind: Kind)
    requires Took(n, rest, kind)
    ensures Inv(Acknowledged(rest))
  {
    match n.s.phase
    case AwaitBatch => BatchAcknowledged(n, rest);
    case AwaitReady => ReadyAcknowledged(n, rest);
    case AwaitSaved => SavedAcknowledged(n, rest);
  }

  /** An acknowledgement on its way may move or get lost. */
  lemma FewerAcks(n: Net, m: Net)
    requires Inv(n) && m == n.(acks := m.acks, down := m.down)
    requires forall a | a in m.acks + m.down :: a in n.acks + n.down
    requires |Mine(m)| <= |Mine(n)| && forall k | k in Mine(m) :: k in Mine(n)
    ensures Inv(m)
  {
    assert |Mine(m)| == 1 ==> Mine(m) == [Mine(m)[0]] && Mine(m)[0] in Mine(n);
  }

  lemma DeliverKeeps(n: Net, ev: Event)
    requires Inv(n) && ev.DeliverAck?
    ensures Inv(Step(n, ev))
  {
    if n.down != [] {
      var n' := Step(n, ev);
      if |n.acks| < ACK_BUFFER {
        assert n'.acks + n'.down == n.acks + n.down;
      } else {
        OnlyIdAppend(n.acks, n.down, n.s.transfer);
        OnlyIdAppend(n.acks, n.down[1..], n.s.transfer);
      }
      FewerAcks(n, n');
    }
  }

  /** A header either leaves an open file alone, having been too long to read, or opens its own. */
  lemma HeaderOutcome(r: State, dir: Directory, slotFree: bool, p: Packet, e: Env)
    requires p.Header? && p.meta.Some?
    ensures var out := Receive(r, dir, slotFree, p, e); var m := p.meta.value;
      && out.stored.None? && out.reply != Some(Saved)
      && (out.state.transfer == r.transfer || out.state.transfer == m.transfer)
      && (out.state.file.Some? ==>
            || out == Outcome(r, None, None)
            || (&& out.reply == Some(Ready) && m.kind == "begin" && out.state.transfer == m.transfer
                && out.state.name == m.name && out.state.file.value.content == []))
      && (m.kind == "batch" && out.state.transfer != r.transfer ==> out.state.file.None?)
      && (out.state.transfer == r.transfer && out.reply.None? ==> out.state == r)
  {
  }

  /** A message that is not a header keeps the transfer and never opens a file. */
  lemma BodyOutcome(r: State, dir: Directory, slotFree: bool, p: Packet, e: Env)
    requires !p.Header?
    ensures var out := Receive(r, dir, slotFree, p, e);
      && out.state.transfer == r.transfer
      && (out.state.file.Some? ==> r.file.Some?)
      && (out.stored.Some? <==> out.reply == Some(Saved))
      && (out.stored.Some? ==> p == Finish && r.file.Some? && out.state.file.None?)
  {
  }

  lemma HandleIds(n: Net, p: Packet, slotFree: bool, e: Env, replyOk: bool)
    requires IdsIssued(n) && (p.Header? ==> p.meta.Some? && p.meta.value.transfer in n.issued)
    ensures IdsIssued(Handled(n, p, slotFree, e, replyOk))
  {
    if p.Header? {
      HeaderOutcome(n.r, n.dir, slotFree, p, e);
    } else {
      BodyOutcome(n.r, n.dir, slotFree, p, e);
    }
    var n' := Handled(n, p, slotFree, e, replyOk);
    forall c | c in n'.commits ensures c.transfer in n'.issued {
      if c !in n.commits { assert c.transfer == n.r.transfer; }
    }
  }

  /** A finished transfer keeps its commits: no file of it is open and none of its headers is under way. */
  lemma HandleFinished(n: Net, p: Packet, slotFree: bool, e: Env, replyOk: bool)
    requires FinishedInv(n) && (p.Header? ==> p.meta.Some?)
    requires forall id | id in n.finished :: NoHeader([p], id)
    ensures FinishedInv(Handled(n, p, slotFree, e, replyOk))
  {
    var n' := Handled(n, p, slotFree, e, replyOk);
    if p.Header? {
      HeaderOutcome(n.r, n.dir, slotFree, p, e);
      assert p in [p];
    } else {
      BodyOutcome(n.r, n.dir, slotFree, p, e);
    }
    assert |n'.commits| > |n.commits| ==> n'.commits[..|n.commits|] == n.commits;
  }

  lemma MineAfter(n: Net, out: Outcome, replyOk: bool)
    ensures Mine(Replied(n, out, replyOk)) ==
      Mine(n) + if out.reply.Some? && replyOk && out.state.transfer == n.s.transfer then [out.reply.value] else []
  {
    if out.reply.Some? && replyOk {
      var a := [Ack(out.reply.value, out.state.transfer)];
      OnlyIdAppend(n.acks + n.down, a, n.s.transfer);
      assert n.acks + (n.down + a) == n.acks + n.down + a;
    }
  }

  lemma HandleAwaitBatch(n: Net, slotFree: bool, e: Env, replyOk: bool)
    requires Inv(n) && n.s.phase.AwaitBatch? && n.up != []
    ensures PhaseInv(Handled(n.(up := n.up[1..]), n.up[0], slotFree, e, replyOk))
  {
    var p, m := n.up[0], n.(up := n.up[1..]);
    var n' := Handled(m, p, slotFree, e, replyOk);
    var out := Receive(n.r, n.dir, slotFree, p, e);
    MineAfter(m, out, replyOk);
    if p.Header? {
      HeaderOutcome(n.r, n.dir, slotFree, p, e);
      assert n'.commits == n.commits;
    } else {
      BodyOutcome(n.r, n.dir, slotFree, p, e);
      assert out.state.transfer != n.s.transfer;
      assert n'.commits == n.commits || n'.commits[..|n.commits|] == n.commits;
    }
    if |n.up| > 1 {
      assert p in n.up[..|n.up| - 1];
      var before, after := n.up[..|n.up| - 1], n'.up[..|n'.up| - 1];
      assert after == before[1..];
    }
  }

  lemma HandleAwaitReady(n: Net, slotFree: bool, e: Env, replyOk: bool)
    requires Inv(n) && n.s.phase.AwaitReady? && n.up != []
    ensures PhaseInv(Handled(n.(up := n.up[1..]), n.up[0], slotFree, e, replyOk))
  {
    var p, m := n.up[0], n.(up := n.up[1..]);
    MineAfter(m, Receive(n.r, n.dir, slotFree, p, e), replyOk);
    HeaderOutcome(n.r, n.dir, slotFree, p, e);
  }

  /** While bytes are on their way, each chunk moves from the channel into the file, or the file is gone. */
  lemma ChunkInStep(n: Net, p: Packet, rest: seq<Packet>, slotFree: bool, e: Env, replyOk: bool)
    requires |n.s.sent| < |n.s.names| && p.Chunk? && InStep(n, [p] + rest) && Saved !in Mine(n)
    ensures var n' := Handled(n, p, slotFree, e, replyOk);
      InStep(n', rest) && Saved !in Mine(n') && n'.commits == n.commits
  {
    var out := Receive(n.r, n.dir, slotFree, p, e);
    MineAfter(n, out, replyOk);
    assert ([p] + rest)[1..] == rest;
    if out.state.file.Some? {
      assert n.r.file.value.content + (p.data + Pending(rest)) == n.r.file.value.content + p.data + Pending(rest);
    }
  }

  lemma HandleStreaming(n: Net, slotFree: bool, e: Env, replyOk: bool)
    requires Inv(n) && n.s.phase.Streaming? && n.up != []
    ensures PhaseInv(Handled(n.(up := n.up[1..]), n.up[0], slotFree, e, replyOk))
  {
    var p, m := n.up[0], n.(up := n.up[1..]);
    assert n.up == [p] + m.up;
    assert Mine(m) == Mine(n);
    ChunkInStep(m, p, m.up, slotFree, e, replyOk);
  }

  lemma HandleLateChunk(n: Net, slotFree: bool, e: Env, replyOk: bool)
    requires Inv(n) && n.s.phase.AwaitSaved? && |n.up| > 1
    ensures PhaseInv(Handled(n.(up := n.up[1..]), n.up[0], slotFree, e, replyOk))
  {
    var p, m := n.up[0], n.(up := n.up[1..]);
    var n' := Handled(m, p, slotFree, e, replyOk);
    var chunks, rest := n.up[..|n.up| - 1], m.up[..|m.up| - 1];
    assert Mine(m) == Mine(n);
    assert p in chunks && chunks == [p] + rest;
    ChunkInStep(m, p, rest, slotFree, e, replyOk);
    assert n'.up == m.up;
  }

  /** The commit adds exactly the file the sender has read to the end. */
  lemma FinishCommits(n: Net, slotFree: bool, e: Env, replyOk: bool)
    requires |n.s.sent| <= |n.s.names| && PhaseInv(n) && n.s.phase.AwaitSaved? && n.up == [Finish]
    ensures var out := Receive(n.r, n.dir, slotFree, Finish, e); var n' := Handled(n.(up := []), Finish, slotFree, e,
        replyOk);
      CommitsOf(n'.commits, n.s.transfer)
      == n.s.sent + if out.stored.Some? then [Item(n.s.names[|n.s.sent|], n.s.body)] else []
  {
    var n' := Handled(n.(up := []), Finish, slotFree, e, replyOk);
    BodyOutcome(n.r, n.dir, slotFree, Finish, e);
    if n'.commits != n.commits {
      assert n.up[..0] == [];
      assert n.r.file.value.content + [] == n.r.file.value.content == n.s.body;
      assert n'.commits[..|n.commits|] == n.commits;
    }
  }

  lemma HandleFinish(n: Net, slotFree: bool, e: Env, replyOk: bool)
    requires Inv(n) && n.s.phase.AwaitSaved? && |n.up| == 1
    ensures PhaseInv(Handled(n.(up := n.up[1..]), n.up[0], slotFree, e, replyOk))
  {
    var m, out := n.(up := []), Receive(n.r, n.dir, slotFree, Finish, e);
    assert n.up == [Finish] && n.up[1..] == [] && Mine(m) == Mine(n);
    MineAfter(m, out, replyOk);
    BodyOutcome(n.r, n.dir, slotFree, Finish, e);
    FinishCommits(n, slotFree, e, replyOk);
  }

  lemma HandleAwaitSaved(n: Net, slotFree: bool, e: Env, replyOk: bool)
    requires Inv(n) && n.s.phase.AwaitSaved? && n.up != []
    ensures PhaseInv(Handled(n.(up := n.up[1..]), n.up[0], slotFree, e, replyOk))
  {
    if |n.up| > 1 {
      HandleLateChunk(n, slotFree, e, replyOk);
    } else {
      HandleFinish(n, slotFree, e, replyOk);
    }
  }

  lemma HandleKeeps(n: Net, ev: Event)
    requires Inv(n) && ev.Handle?
    ensures Inv(Step(n, ev))
  {
    if n.up != [] {
      var p, m := n.up[0], n.(up := n.up[1..]);
      assert forall q | q in m.up :: q in n.up;
      assert p in n.up;
      HandleIds(m, p, ev.slotFree, ev.e, ev.replyOk);
      HandleFinished(m, p, ev.slotFree, ev.e, ev.replyOk);
      match n.s.phase {
        case AwaitBatch => HandleAwaitBatch(n, ev.slotFree, ev.e, ev.replyOk);
        case AwaitReady => HandleAwaitReady(n, ev.slotFree, ev.e, ev.replyOk);
        case Streaming => HandleStreaming(n, ev.slotFree, ev.e, ev.replyOk);
        case AwaitSaved => HandleAwaitSaved(n, ev.slotFree, ev.e, ev.replyOk);
        case _ =>
      }
    }
  }

  /** An open file may be lost, with or without an error message to the sender. */
  lemma LostFileKeepsPhase(n: Net, m: Net)
    requires Inv(n) && n.r.file.Some? && m == n.(r := Cleaned(n.r), down := m.down)
    requires Mine(m) == Mine(n) || (Mine(m) == Mine(n) + [Error] && n.r.transfer == n.s.transfer)
    ensures PhaseInv(m)
  {
    assert Saved in Mine(m) ==> Saved in Mine(n);
  }

  lemma FileLost(n: Net, replyOk: bool)
    requires Inv(n) && n.r.file.Some?
    ensures Inv(Replied(n, Failed(n.r), replyOk))
  {
    var m := Replied(n, Failed(n.r), replyOk);
    MineAfter(n, Failed(n.r), replyOk);
    assert Mine(n) + [] == Mine(n);
    LostFileKeepsPhase(n, m);
  }

  /** The watchdog can only take an open file away. */
  lemma FireKeeps(n: Net, ev: Event)
    requires Inv(n) && ev.Fire?
    ensures Inv(Step(n, ev))
  {
    var out := Expire(n.r, ev.path, ev.now);
    if out == Failed(n.r) && n.r.file.Some? {
      FileLost(n, ev.replyOk);
    } else {
      assert Step(n, ev) == n;
    }
  }

  /** So can a closing channel. */
  lemma ShutKeeps(n: Net)
    requires Inv(n)
    ensures Inv(Step(n, Shut))
  {
    var m := Step(n, Shut);
    assert Mine(m) == Mine(n);
    if n.r.file.Some? { LostFileKeepsPhase(n, m); }
  }

  lemma OtherFileKeeps(n: Net, ev: Event)
    requires Inv(n) && ev.OtherFile?
    ensures Inv(Step(n, ev))
  {
  }

  lemma StepKeepsInv(n: Net, ev: Event)
    requires Inv(n)
    ensures Inv(Step(n, ev))
  {
    match ev
    case Start(_, _, _, _) => StartKeeps(n, ev);
    case OpenFile(_, _) => OpenKeeps(n, ev);
    case ReadChunk(_) => ChunkKeeps(n, ev);
    case EndOfFile => EndOfFileKeeps(n, ev);
    case TakeAck(_) => TakeKeeps(n, ev);
    case Abort(tell) => GiveUpKeeps(n, tell);
    case DeliverAck => DeliverKeeps(n, ev);
    case Handle(_, _, _) => HandleKeeps(n, ev);
    case Fire(_, _, _) => FireKeeps(n, ev);
    case Shut => ShutKeeps(n);
    case OtherFile(_, _) => OtherFileKeeps(n, ev);
  }

  // ---------------------------------------------------------------- whole runs

  /**
   Over every interleaving of sender, receiver, channels, cancels, timeouts, revocations, full slots, lost
   replies and failing system calls: a transfer that ended with the success status has had each of its
   paths committed exactly once, in order, under its declared name and with exactly the bytes read.
   */
  lemma {:induction false} SuccessMeansCommitted(dir: Directory, events: seq<Event>)
    ensures var n := Run(Init(dir), events);
      && Inv(n)
      && forall id | id in n.finished ::
           && CommitsOf(n.commits, id) == n.finished[id].read
           && |n.finished[id].read| == |n.finished[id].names|
           && forall j | 0 <= j < |n.finished[id].names| :: n.finished[id].read[j].name == n.finished[id].names[j]
  {
    if events == [] {
    } else {
      SuccessMeansCommitted(dir, events[..|events| - 1]);
      StepKeepsInv(Run(Init(dir), events[..|events| - 1]), events[|events| - 1]);
    }
  }

  /**
   Only an acknowledgement of the present transfer moves the sender, and only one that was made for the file it is
   at.  None of the transfer is under way when it starts or when the next file is begun, and none that says saved
   when a file ends; whoever then hears saved finds exactly that file committed.
   */
  lemma StaleAcksNeverCount(dir: Directory, events: seq<Event>, ev: Event)
    ensures var n := Run(Init(dir), events); var n' := Step(n, ev);
      && (ev.TakeAck? && n'.s != n.s ==> n.acks[0].transfer == n.s.transfer)
      && ((ev.Start? || ev.OpenFile?) && n' != n ==> Mine(n') == [])
      && (ev.EndOfFile? && n' != n ==> Saved !in Mine(n'))
      && (ev.TakeAck? && |n'.s.sent| > |n.s.sent| ==>
            && CommitsOf(n.commits, n.s.transfer) == n'.s.sent
            && n'.s.sent == n.s.sent + [Item(n.s.names[|n.s.sent|], n.s.body)])
  {
    var n := Run(Init(dir), events);
    SuccessMeansCommitted(dir, events);
    StartOrNot(n, ev);
    if ev.OpenFile? {
      OpenedFresh(n, ev);
    } else if ev.TakeAck? && Awaiting(n.s) && n.acks != [] && n.s.phase.AwaitSaved? {
      SavedIsOwn(n, ev);
    }
  }

  lemma OpenedFresh(n: Net, ev: Event)
    requires Inv(n) && ev.OpenFile?
    ensures Step(n, ev) != n ==> Mine(Step(n, ev)) == []
  {
    OnlyIdAppend(n.acks, n.down, n.s.transfer);
    assert [] + n.down == n.down;
  }

  lemma SavedIsOwn(n: Net, ev: Event)
    requires Inv(n) && ev.TakeAck? && n.s.phase.AwaitSaved? && n.acks != []
    ensures var n' := Step(n, ev);
      |n'.s.sent| > |n.s.sent| ==>
        && CommitsOf(n.commits, n.s.transfer) == n'.s.sent
        && n'.s.sent == n.s.sent + [Item(n.s.names[|n.s.sent|], n.s.body)]
  {
    var a := n.acks[0];
    if a.transfer == n.s.transfer && a.kind == Saved {
      assert (n.acks + n.down)[0] == a;
      assert Mine(n)[0] == Saved;
      assert Saved in Mine(n);
    }
  }

  lemma StartOrNot(n: Net, ev: Event)
    requires Inv(n)
    ensures ev.Start? && Step(n, ev) != n ==> Mine(Step(n, ev)) == []
  {
    if ev.Start? { StartKeeps(n, ev); }
  }

  ghost predicate Stored(n: Net, dir: Directory) {
    && (forall path | path in dir :: path in n.dir && n.dir[path] == dir[path])
    && (forall c | c in n.commits ::
          && c.stored in n.dir && n.dir[c.stored] == c.item.content && c.stored !in dir
          && exists k: nat :: c.stored == Candidate(c.item.name, k))
    && (forall i, j | 0 <= i < j < |n.commits| :: n.commits[i].stored != n.commits[j].stored)
  }

  lemma HandleStores(n: Net, dir: Directory, p: Packet, slotFree: bool, e: Env, replyOk: bool)
    requires Stored(n, dir)
    ensures Stored(Handled(n, p, slotFree, e, replyOk), dir)
  {
    var out := Receive(n.r, n.dir, slotFree, p, e);
    if out.stored.Some? {
      assert p == Finish;
      CommitNeverOverwrites(n.dir, n.r.name, e.refusal);
      assert forall c | c in n.commits :: c.stored in n.dir;
    }
  }

  lemma StepStores(n: Net, dir: Directory, ev: Event)
    requires Stored(n, dir)
    ensures Stored(Step(n, ev), dir)
  {
    if ev.Handle? {
      if n.up != [] {
        HandleStores(n.(up := n.up[1..]), dir, n.up[0], ev.slotFree, ev.e, ev.replyOk);
      }
    } else {
      var n' := Step(n, ev);
      assert n'.commits == n.commits;
      assert forall path | path in n.dir :: path in n'.dir && n'.dir[path] == n.dir[path];
    }
  }

  /**
   Over every run, each commit lands on a name that did not exist, every commit has its own name, and
   neither the entries that were there before nor those of earlier commits ever change.
   */
  lemma {:induction false} CommitsNeverCollide(dir: Directory, events: seq<Event>)
    ensures Stored(Run(Init(dir), events), dir)
  {
    if events == [] {
    } else {
      CommitsNeverCollide(dir, events[..|events| - 1]);
      StepStores(Run(Init(dir), events[..|events| - 1]), dir, events[|events| - 1]);
    }
  }

  lemma StepKeepsEntries(n: Net, ev: Event)
    ensures forall path | path in n.dir :: path in Step(n, ev).dir && Step(n, ev).dir[path] == n.dir[path]
  {
    if ev.Handle? && n.up != [] {
      CommitNeverOverwrites(n.dir, n.r.name, ev.e.refusal);
    }
  }

  /** Whatever is in the directory at some moment, whoever put it there, keeps its contents for the rest of the run. */
  lemma {:induction false} EntriesSurvive(dir: Directory, events: seq<Event>, k: nat)
    requires k <= |events|
    ensures var early, late := Run(Init(dir), events[..k]).dir, Run(Init(dir), events).dir;
      forall path | path in early :: path in late && late[path] == early[path]
  {
    if k == |events| {
      assert events[..k] == events;
    } else {
      var before := events[..|events| - 1];
      assert before[..k] == events[..k];
      EntriesSurvive(dir, before, k);
      StepKeepsEntries(Run(Init(dir), before), events[|events| - 1]);
    }
  }

  // ---------------------------------------------------------------- success is reachable

  const CALM := Env(0, true, 8388607 * 1073741824, Some("part"), true, 0, true, true, None)

  lemma {:induction false} RunAppend(n: Net, a: seq<Event>, b: seq<Event>)
    ensures Run(n, a + b) == Run(Run(n, a), b)
  {
    if b == [] {
      assert a + b == a;
    } else {
      assert (a + b)[..|a + b| - 1] == a + b[..|b| - 1];
      RunAppend(n, a, b[..|b| - 1]);
    }
  }

  function Size(items: seq<Item>): nat {
    if items == [] then 0 else |items[0].content| + Size(items[1..])
  }

  function Names(items: seq<Item>): (names: seq<string>)
    ensures |names| == |items| && forall i | 0 <= i < |items| :: names[i] == items[i].name
  {
    seq(|items|, i requires 0 <= i < |items| => items[i].name)
  }

  function Announcing(items: seq<Item>, transfer: string): seq<Event> {
    [Start(Names(items), Size(items), transfer, 200), Handle(true, CALM, true), DeliverAck, TakeAck(true)]
  }

  function Opening(c: Bytes): seq<Event> {
    [OpenFile(|c|, 200), Handle(true, CALM, true), DeliverAck, TakeAck(true)]
  }

  /** The sender reads in pieces of at most a chunk, and nothing at all of an empty file. */
  function Pieces(c: Bytes): seq<Event> {
    if c == [] then []
    else
      var n := if |c| < SEND_CHUNK then |c| else SEND_CHUNK;
      [ReadChunk(c[..n]), Handle(true, CALM, true)] + Pieces(c[n..])
  }

  const ENDING := [EndOfFile, Handle(true, CALM, true)]

  function Sending(c: Bytes): seq<Event> {
    Pieces(c) + ENDING
  }

  const CONFIRMING := [DeliverAck, TakeAck(true)]

  function OneFile(c: Bytes): seq<Event> {
    Opening(c) + Sending(c) + CONFIRMING
  }

  function Schedule(items: seq<Item>): seq<Event> {
    if items == [] then []
    else OneFile(items[0].content) + Schedule(items[1..])
  }

  ghost predicate Quiet(n: Net) {
    n.up == [] && n.down == [] && n.acks == []
  }

  /** The sender is about to open the first of `rest`, and the batch still has room for all of them. */
  ghost predicate ReadyFor(n: Net, rest: seq<Item>) {
    && Quiet(n) && n.s.phase == NextFile && n.r.transfer == n.s.transfer
    && |n.s.sent| + |rest| == |n.s.names|
    && n.s.names[|n.s.sent|..] == Names(rest)
    && n.r.batchCount == |rest| && n.r.batchRemaining == Size(rest)
    && |n.dir| + |rest| <= MAX_CANDIDATES
  }

  ghost predicate Sendable(items: seq<Item>) {
    forall x | x in items :: CommitName(x.name)
  }

  lemma {:induction false} OpeningWorks(n: Net, x: Item, rest: seq<Item>)
    requires ReadyFor(n, [x] + rest) && CommitName(x.name) && |n.s.transfer| == TRANSFER_ID
    ensures var m := Run(n, Opening(x.content));
      && m == n.(s := n.s.(phase := Streaming, body := []), r := m.r)
      && m.r == State(Some(Temp("part", [])), x.name, |x.content|, Size(rest), |rest|, n.r.transfer, 0, true, true)
  {
    assert ([x] + rest)[1..] == rest;
    assert n.s.names[|n.s.sent|] == n.s.names[|n.s.sent|..][0] == x.name;
    OpeningSteps(n, x, rest);
  }

  /** The receiver's answer to a begin message is on its way, and is the one the sender waits for. */
  lemma ReadyArrives(n: Net, x: Item, rest: seq<Item>)
    requires ReadyFor(n, [x] + rest) && CommitName(x.name) && |n.s.transfer| == TRANSFER_ID
    requires |n.s.sent| < |n.s.names| && n.s.names[|n.s.sent|] == x.name
    ensures var waiting := n.(s := n.s.(phase := AwaitReady, body := []));
      Step(waiting.(up := [BeginPacket(n.s, |x.content|, 200)]), Handle(true, CALM, true))
      == waiting.(r := Opened(n, x, rest), down := [Ack(Ready, n.s.transfer)])
  {
    HeaderOpens(n, x, rest);
    var up := [BeginPacket(n.s, |x.content|, 200)];
    assert up[1..] == [] && [] + [Ack(Ready, n.s.transfer)] == [Ack(Ready, n.s.transfer)];
  }

  function Opened(n: Net, x: Item, rest: seq<Item>): State {
    State(Some(Temp("part", [])), x.name, |x.content|, Size(rest), |rest|, n.r.transfer, 0, true, true)
  }

  lemma OpeningSteps(n: Net, x: Item, rest: seq<Item>)
    requires ReadyFor(n, [x] + rest) && CommitName(x.name) && |n.s.transfer| == TRANSFER_ID
    requires |n.s.sent| < |n.s.names| && n.s.names[|n.s.sent|] == x.name
    ensures var m := Run(n, Opening(x.content));
      m == n.(s := n.s.(phase := Streaming, body := []), r := Opened(n, x, rest))
  {
    var e := Opening(x.content);
    var ready, waiting := Opened(n, x, rest), n.(s := n.s.(phase := AwaitReady, body := []));
    RunFour(n, e);
    assert Step(n, e[0]) == waiting.(up := [BeginPacket(n.s, |x.content|, 200)]);
    ReadyArrives(n, x, rest);
    AckTaken(waiting.(r := ready));
  }

  /** The acknowledgement crosses and moves the sender on. */
  lemma AckTaken(waiting: Net)
    requires waiting.s.phase == AwaitReady && waiting.acks == [] && waiting.down == []
    ensures Step(Step(waiting.(down := [Ack(Ready, waiting.s.transfer)]), DeliverAck), TakeAck(true))
      == waiting.(s := waiting.s.(phase := Streaming))
  {
    var a := Ack(Ready, waiting.s.transfer);
    var crossed := Step(waiting.(down := [a]), DeliverAck);
    assert [a][1..] == [] && [] + [a] == [a];
    assert crossed == waiting.(acks := [a]);
  }

  lemma {:induction false} HeaderOpens(n: Net, x: Item, rest: seq<Item>)
    requires ReadyFor(n, [x] + rest) && CommitName(x.name) && |n.s.transfer| == TRANSFER_ID
    requires n.s.names[|n.s.sent|] == x.name
    ensures Receive(n.r, n.dir, true, BeginPacket(n.s, |x.content|, 200), CALM)
      == Outcome(State(Some(Temp("part", [])), x.name, |x.content|, Size(rest), |rest|, n.r.transfer, 0, true, true),
                 Some(Ready), None)
  {
    assert ([x] + rest)[1..] == rest;
  }

  lemma {:induction false} RunFour(n: Net, e: seq<Event>)
    requires |e| == 4
    ensures Run(n, e) == Step(Step(Step(Step(n, e[0]), e[1]), e[2]), e[3])
  {
    assert e[..3][..2] == e[..2] && e[..2][..1] == e[..1] && e[..1][..0] == [];
    assert Run(n, e[..1]) == Step(n, e[0]);
    assert Run(n, e[..2]) == Step(Run(n, e[..1]), e[1]);
    assert Run(n, e[..3]) == Step(Run(n, e[..2]), e[2]);
  }

  lemma {:induction false} RunTwo(n: Net, e: seq<Event>)
    requires |e| == 2
    ensures Run(n, e) == Step(Step(n, e[0]), e[1])
  {
    assert e[..1][..0] == [];
    assert Run(n, e[..1]) == Step(n, e[0]);
  }

  /** The sender streams, the receiver has stored `got` and expects as much as `left` holds. */
  ghost predicate Streams(n: Net, got: Bytes, left: Bytes) {
    && Quiet(n) && n.s.phase == Streaming && n.s.body == got
    && n.r.file == Some(Temp("part", got)) && n.r.remaining == |left| && n.r.updated == 0
  }

  /** The same net after the bytes of `c` have been read, sent and stored. */
  function Streamed(n: Net, got: Bytes, left: int): Net {
    n.(s := n.s.(body := got), r := n.r.(file := Some(Temp("part", got)), remaining := left))
  }

  lemma PieceWorks(n: Net, got: Bytes, piece: Bytes, left: Bytes)
    requires Streams(n, got, piece + left) && 1 <= |piece| <= SEND_CHUNK
    ensures Run(n, [ReadChunk(piece), Handle(true, CALM, true)]) == Streamed(n, got + piece, |left|)
    ensures Streams(Streamed(n, got + piece, |left|), got + piece, left)
  {
    RunTwo(n, [ReadChunk(piece), Handle(true, CALM, true)]);
    var a := Step(n, ReadChunk(piece));
    assert [] + [Chunk(piece)] == [Chunk(piece)] && [Chunk(piece)][1..] == [];
    assert a == n.(s := n.s.(body := got + piece), up := [Chunk(piece)]);
    assert Receive(n.r, n.dir, true, Chunk(piece), CALM)
        == Outcome(n.r.(file := Some(Temp("part", got + piece)), remaining := |left|, updated := 0), None, None);
  }

  lemma {:induction false} PiecesWork(n: Net, got: Bytes, c: Bytes)
    requires Streams(n, got, c)
    ensures Run(n, Pieces(c)) == Streamed(n, got + c, 0)
    ensures Streams(Streamed(n, got + c, 0), got + c, [])
    decreases |c|
  {
    if c == [] {
      assert got + c == got;
    } else {
      var k := if |c| < SEND_CHUNK then |c| else SEND_CHUNK;
      var piece, left := c[..k], c[k..];
      assert c == piece + left && got + c == got + piece + left;
      PieceWorks(n, got, piece, left);
      PiecesWork(Streamed(n, got + piece, |left|), got + piece, left);
      RunAppend(n, [ReadChunk(piece), Handle(true, CALM, true)], Pieces(left));
    }
  }

  lemma FinishReceived(r: State, dir: Directory)
    requires r.file.Some? && r.remaining == 0 && CommitName(r.name) && |dir| < MAX_CANDIDATES
    ensures var out := Receive(r, dir, true, Finish, CALM);
      out == Outcome(Cleaned(r), Some(Saved), out.stored) && out.stored.Some? && |Placed(dir, r, out.stored)|
          == |dir| + 1
  {
    CommitNeverOverwrites(dir, r.name, None);
    var path := Destination(dir, r.name, None).value;
    var dir' := dir[path := r.file.value.content];
    assert dir'.Keys == dir.Keys + {path};
    assert |dir'| == |dir'.Keys| && |dir| == |dir.Keys|;
  }

  lemma EndingWorks(n: Net, got: Bytes)
    requires Streams(n, got, []) && CommitName(n.r.name) && |n.dir| < MAX_CANDIDATES
    ensures var m := Run(n, ENDING);
      && m.s == n.s.(phase := AwaitSaved)
      && m.up == [] && m.acks == [] && m.down == [Ack(Saved, n.r.transfer)]
      && m.r == Cleaned(n.r) && |m.dir| == |n.dir| + 1 && m.finished == n.finished
  {
    RunTwo(n, ENDING);
    FinishReceived(n.r, n.dir);
    var a := Step(n, EndOfFile);
    assert [] + [Finish] == [Finish] && [Finish][1..] == [];
    assert a == n.(s := n.s.(phase := AwaitSaved), up := [Finish]);
    assert [] + [Ack(Saved, n.r.transfer)] == [Ack(Saved, n.r.transfer)];
  }

  lemma SendingWorks(n: Net, x: Item)
    requires Streams(n, [], x.content) && n.r.name == x.name && CommitName(x.name) && |n.dir| < MAX_CANDIDATES
    ensures var m := Run(n, Sending(x.content));
      && m.s == n.s.(phase := AwaitSaved, body := x.content)
      && m.up == [] && m.acks == [] && m.down == [Ack(Saved, n.r.transfer)]
      && m.r == Cleaned(n.r).(remaining := 0)
      && |m.dir| == |n.dir| + 1 && m.finished == n.finished
  {
    assert [] + x.content == x.content;
    PiecesWork(n, [], x.content);
    EndingWorks(Streamed(n, x.content, 0), x.content);
    RunAppend(n, Pieces(x.content), ENDING);
  }

  lemma {:induction false} ConfirmingWorks(n: Net)
    requires n.s.phase == AwaitSaved && |n.s.sent| < |n.s.names|
    requires n.acks == [] && n.down == [Ack(Saved, n.s.transfer)]
    ensures Run(n, CONFIRMING) == Acknowledged(n.(down := [], acks := []))
  {
    assert CONFIRMING[..1] == [DeliverAck] && CONFIRMING[..1][..0] == [];
    assert Run(n, CONFIRMING[..1]) == Step(n, DeliverAck) == n.(down := [], acks := [Ack(Saved, n.s.transfer)]);
  }

  lemma {:induction false} OneFileWorks(n: Net, x: Item, rest: seq<Item>)
    requires ReadyFor(n, [x] + rest) && Sendable([x]) && |n.s.transfer| == TRANSFER_ID
    ensures var m := Run(n, OneFile(x.content));
      && m.s.transfer == n.s.transfer
      && if rest == [] then n.s.transfer in m.finished else ReadyFor(m, rest)
  {
    var c := x.content;
    assert x in [x];
    OpeningWorks(n, x, rest);
    var a := Run(n, Opening(c));
    SendingWorks(a, x);
    var b := Run(a, Sending(c));
    ConfirmingWorks(b);
    RunAppend(n, Opening(c), Sending(c));
    RunAppend(n, Opening(c) + Sending(c), CONFIRMING);
    var m := Acknowledged(b.(down := [], acks := []));
    var k := |n.s.sent|;
    assert n.s.names[k + 1..] == n.s.names[k..][1..];
    assert ([x] + rest)[1..] == rest;
    assert Names([x] + rest)[1..] == Names(rest);
  }

  lemma SendableTail(x: Item, more: seq<Item>)
    requires Sendable([x] + more)
    ensures Sendable([x]) && Sendable(more)
  {
    var all := [x] + more;
    assert all[0] == x;
    forall y | y in more ensures y in all {
      var i :| 0 <= i < |more| && more[i] == y;
      assert all[i + 1] == y;
    }
  }

  lemma ScheduleHead(n: Net, x: Item, more: seq<Item>)
    ensures Run(n, Schedule([x] + more)) == Run(Run(n, OneFile(x.content)), Schedule(more))
  {
    assert ([x] + more)[1..] == more;
    RunAppend(n, OneFile(x.content), Schedule(more));
  }

  /** From where a file is due, the schedule of the remaining files ends with the success status. */
  lemma {:induction false} CalmFilesSucceed(n: Net, x: Item, more: seq<Item>)
    requires ReadyFor(n, [x] + more) && Sendable([x] + more) && |n.s.transfer| == TRANSFER_ID
    ensures n.s.transfer in Run(n, Schedule([x] + more)).finished
    decreases |more|
  {
    SendableTail(x, more);
    OneFileWorks(n, x, more);
    ScheduleHead(n, x, more);
    if more == [] {
    } else {
      assert more == [more[0]] + more[1..];
      CalmFilesSucceed(Run(n, OneFile(x.content)), more[0], more[1..]);
    }
  }

  lemma {:induction false} AnnouncingWorks(dir: Directory, items: seq<Item>, transfer: string)
    requires 1 <= |items| <= 100 && |transfer| == TRANSFER_ID
    requires |dir| + |items| <= MAX_CANDIDATES && Size(items) <= CALM.limit
    ensures var m := Run(Init(dir), Announcing(items, transfer)); ReadyFor(m, items) && m.s.transfer == transfer
  {
    var e, n := Announcing(items, transfer), Init(dir);
    var a := Step(n, e[0]);
    assert a.up == [BatchPacket(a.s, Size(items), 200)];
    var b := Step(a, e[1]);
    assert b.down == [Ack(BatchReady, transfer)] && b.up == [];
    var c := Step(b, e[2]);
    assert c.acks == [Ack(BatchReady, transfer)] && c.down == [];
    RunFour(n, e);
    assert Names(items)[0..] == Names(items);
  }

  /**
   The success status is reached: when nothing fails, every batch of up to a hundred files of any contents, under
   legal names, within the limit and with room in the directory, ends with it.
   */
  lemma {:induction false} CalmBatchSucceeds(dir: Directory, items: seq<Item>, transfer: string)
    requires 1 <= |items| <= 100 && Sendable(items) && |transfer| == TRANSFER_ID
    requires |dir| + |items| <= MAX_CANDIDATES && Size(items) <= CALM.limit
    ensures transfer in Run(Init(dir), Announcing(items, transfer) + Schedule(items)).finished
  {
    AnnouncingWorks(dir, items, transfer);
    assert items == [items[0]] + items[1..];
    CalmFilesSucceed(Run(Init(dir), Announcing(items, transfer)), items[0], items[1..]);
    RunAppend(Init(dir), Announcing(items, transfer), Schedule(items));
  }
}
