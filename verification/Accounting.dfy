/**
 Any number of receivers over one slot pool (app/engine/files.go): who holds a slot, how many files can
 be open at once, and what a batch may declare.  `Ledger` adds to a receiver the history the claims
 speak of; the receiver never reads it.
 */
module Accounting {
  import opened Prelude
  import opened Uploads
  import opened Receiver

  datatype Ledger = Ledger(
    state: State,
    declared: int,  // size named by the header that opened the current file
    accepted: int,  // sizes charged to the batch since its header
    begun: int,    // files charged to the batch since its header
    total: int, count: int, limit: int)  // of the batch header, with the limit read at that moment

  datatype World = World(receivers: map<nat, Ledger>, used: nat, dir: Directory)

  datatype Action =
    | Connect(id: nat)
    | Deliver(id: nat, p: Packet, e: Env)
    | Fire(id: nat, path: string, now: int)
    | Shut(id: nat)

  const BLANK := Ledger(FRESH, 0, 0, 0, 0, 0, 0)

  predicate IsBatch(p: Packet) {
    p.Header? && p.len <= MAX_HEADER && p.meta.Some? && p.meta.value.kind == "batch"
    && |p.meta.value.transfer| == TRANSFER_ID
  }

  function Entered(l: Ledger, p: Packet, e: Env, out: Outcome): Ledger {
    if e.allowed && IsBatch(p) then
      if out.reply == Some(BatchReady) then
        Ledger(out.state, l.declared, 0, 0, p.meta.value.total, p.meta.value.count, e.limit)
      else Ledger(out.state, l.declared, 0, 0, 0, 0, 0)
    else if out.state.batchCount == l.state.batchCount - 1 && p.Header? && p.meta.Some? then
      Ledger(out.state, p.meta.value.size, l.accepted + p.meta.value.size, l.begun + 1, l.total, l.count, l.limit)
    else l.(state := out.state)
  }

  function Used(before: State, after: State, used: int): int {
    used - (if before.slot then 1 else 0) + if after.slot then 1 else 0
  }

  function Replace(w: World, id: nat, l: Ledger): World
    requires id in w.receivers
  {
    var used := Used(w.receivers[id].state, l.state, w.used);
    World(w.receivers[id := l], if used < 0 then 0 else used, w.dir)
  }

  function Step(w: World, a: Action): World {
    if a.Connect? then
      if a.id in w.receivers then w else w.(receivers := w.receivers[a.id := BLANK])
    else if a.id !in w.receivers then w
    else
      var l := w.receivers[a.id];
      match a
      case Deliver(id, p, e) =>
        var out := Receive(l.state, w.dir, w.used < SLOTS, p, e);
        Replace(w, id, Entered(l, p, e, out)).(dir := Placed(w.dir, l.state, out.stored))
      case Fire(id, path, now) => Replace(w, id, l.(state := Expire(l.state, path, now).state))
      case Shut(id) => Replace(w, id, l.(state := Cleaned(l.state)))
  }

  function Run(w: World, actions: seq<Action>): World {
    if actions == [] then w else Step(Run(w, actions[..|actions| - 1]), actions[|actions| - 1])
  }

  /** Between two messages of one receiver. */
  ghost predicate Consistent(l: Ledger) {
    var r := l.state;
    && (r.slot <==> r.file.Some?) && (r.timer <==> r.file.Some?)
    && (r.file.Some? ==> 0 <= r.remaining && |r.file.value.content| + r.remaining == l.declared)
    && 0 <= r.batchRemaining && 0 <= l.accepted && l.accepted + r.batchRemaining <= l.total <= l.limit
    && 0 <= r.batchCount && 0 <= l.begun && l.begun + r.batchCount <= l.count <= 100
  }

  ghost function Holders(w: World): set<nat> {
    set id | id in w.receivers && w.receivers[id].state.slot
  }

  ghost predicate Inv(w: World) {
    && (forall id | id in w.receivers :: Consistent(w.receivers[id]))
    && w.used == |Holders(w)| <= SLOTS
  }

  lemma HeaderKeepsLedger(l: Ledger, dir: Directory, slotFree: bool, p: Packet, e: Env)
    requires Consistent(l) && p.Header? && e.allowed && p.len <= MAX_HEADER && p.meta.Some?
    ensures Consistent(Entered(l, p, e, Receive(l.state, dir, slotFree, p, e)))
  {
    var named := if NamesTransfer(p) then l.state.(transfer := p.meta.value.transfer) else l.state;
    var r, m := Cleaned(named), p.meta.value;
    var out := Receive(l.state, dir, slotFree, p, e);
    assert out == ReceiveHeader(r, m, slotFree || named.slot, e);
    if m.kind == "batch" {
      assert |m.transfer| != TRANSFER_ID ==> out.state == r;
    } else if FileAdmissible(r, m) {
      assert Entered(l, p, e, out) ==
        Ledger(out.state, m.size, l.accepted + m.size, l.begun + 1, l.total, l.count, l.limit);
    } else {
      assert out.state == r;
    }
  }

  lemma ReceiveKeepsLedger(l: Ledger, dir: Directory, slotFree: bool, p: Packet, e: Env)
    requires Consistent(l)
    ensures Consistent(Entered(l, p, e, Receive(l.state, dir, slotFree, p, e)))
  {
    if p.Header? && e.allowed && p.len <= MAX_HEADER && p.meta.Some? {
      HeaderKeepsLedger(l, dir, slotFree, p, e);
    } else {
      var out := Receive(l.state, dir, slotFree, p, e);
      assert p.Header? ==> out.state.batchCount == l.state.batchCount;
      assert Entered(l, p, e, out) == l.(state := out.state);
    }
  }

  /** A slot is taken only when one is free, counting the one this receiver gives back first. */
  lemma SlotIsFree(r: State, dir: Directory, slotFree: bool, p: Packet, e: Env)
    ensures Receive(r, dir, slotFree, p, e).state.slot ==> r.slot || slotFree
  {
  }

  lemma HoldersAfter(w: World, id: nat, l: Ledger)
    requires id in w.receivers && w.used == |Holders(w)|
    ensures var w' := Replace(w, id, l);
      && w'.used == |Holders(w')|
      && Used(w.receivers[id].state, l.state, w.used) >= 0
  {
    var w' := Replace(w, id, l);
    var rest := Holders(w) - {id};
    assert Holders(w) == if w.receivers[id].state.slot then rest + {id} else rest;
    assert Holders(w') == if l.state.slot then rest + {id} else rest;
  }

  lemma StepKeepsInv(w: World, a: Action)
    requires Inv(w)
    ensures Inv(Step(w, a))
  {
    var w' := Step(w, a);
    if a.id in w.receivers && !a.Connect? {
      var l := w.receivers[a.id];
      var l' := w'.receivers[a.id];
      if a.Deliver? {
        ReceiveKeepsLedger(l, w.dir, w.used < SLOTS, a.p, a.e);
        SlotIsFree(l.state, w.dir, w.used < SLOTS, a.p, a.e);
      }
      HoldersAfter(w, a.id, l');
      assert Holders(w') == Holders(Replace(w, a.id, l'));
      assert Consistent(l');
      if l.state.slot { assert a.id in Holders(w); }
    } else {
      assert Holders(w') == Holders(w);
    }
  }

  /**
   Over every run of every number of receivers: a slot is held exactly while a file is open, so at most
   four files are open at once and a release always finds a slot to give back; bytes written plus bytes
   still expected are the declared size; and what a batch has charged never exceeds its declared total,
   which the limit in force at its header allows.
   */
  lemma {:induction false} AccountsBalance(actions: seq<Action>, dir: Directory)
    ensures var w := Run(World(map[], 0, dir), actions);
      && Inv(w)
      && (forall id | id in w.receivers && w.receivers[id].state.slot :: w.used >= 1)
      && |set id | id in w.receivers && w.receivers[id].state.file.Some?| <= SLOTS
  {
    var w := Run(World(map[], 0, dir), actions);
    if actions == [] {
      assert Holders(w) == {};
    } else {
      AccountsBalance(actions[..|actions| - 1], dir);
      StepKeepsInv(Run(World(map[], 0, dir), actions[..|actions| - 1]), actions[|actions| - 1]);
    }
    assert Holders(w) == set id | id in w.receivers && w.receivers[id].state.file.Some?;
    forall id | id in w.receivers && w.receivers[id].state.slot ensures w.used >= 1 {
      assert id in Holders(w);
    }
  }

  /**
   The test that an opening header belongs to the current batch compares its identifier with the one that the same
   header has just set, unless the header is exactly as long as the limit or its identifier is not 32 characters
   long.  So a header of another transfer is let in exactly when it is neither and the batch's numbers allow the file.
   */
  lemma ForeignHeaderAccepted(r: State, dir: Directory, slotFree: bool, p: Packet, e: Env)
    requires e.allowed && p.Header? && p.len <= MAX_HEADER && p.meta.Some? && p.meta.value.kind == "begin"
    ensures var m := p.meta.value;
      Receive(r, dir, slotFree, p, e).reply == Some(Ready)
      <==> (m.transfer == r.transfer || NamesTransfer(p))
           && 0 <= m.size <= r.batchRemaining && 1 <= r.batchCount && LocalName(m.name)
           && (slotFree || r.slot) && e.temp.Some?
  {
  }

  const A := "aaaaaaaaaaaaaaaaaaaaaaaaaaaaaaaa"
  const B := "bbbbbbbbbbbbbbbbbbbbbbbbbbbbbbbb"
  const WILLING := Env(0, true, 100, Some("part"), true, 0, true, true, None)

  /** A batch of transfer A is announced, and a file of transfer B is opened under it. */
  const ANNOUNCED := Header(200, Some(Meta(A, "batch", "", 0, 10, 1)))
  const FOREIGN := Header(200, Some(Meta(B, "begin", "x", 10, 0, 0)))

  lemma ForeignFileIsOpened()
    ensures var w := Run(World(map[], 0, map[]), [Connect(0), Deliver(0, ANNOUNCED, WILLING)]);
      && 0 in w.receivers && w.receivers[0].state.transfer == A
      && Receive(w.receivers[0].state, w.dir, w.used < SLOTS, FOREIGN, WILLING).reply == Some(Ready)
  {
    var start, events := World(map[], 0, map[]), [Connect(0), Deliver(0, ANNOUNCED, WILLING)];
    assert events[..1] == [Connect(0)] && events[..1][..0] == [];
    assert Run(start, events[..1]) == Step(start, Connect(0));
    assert |A| == 32 && |B| == 32;
    assert LocalName("x");
  }
}
