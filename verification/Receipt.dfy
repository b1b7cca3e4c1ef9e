/**
 What the messages of a file transfer bring about (app/engine/files.go), said of the receivers and the directory
 before and after: which message opens a file, which adds bytes to one and which commits one, in both directions.
 */
module Receipt {
  import opened Prelude
  import opened Uploads
  import opened Receiver
  import opened Accounting

  /** `path` is the first free name for `name`, and it is free before the system refuses a move. */
  ghost predicate Lands(dir: Directory, name: string, refusal: Option<nat>, path: string) {
    CommitName(name) && exists k: nat :: LandsAt(dir, name, refusal, path, k)
  }

  predicate LandsAt(dir: Directory, name: string, refusal: Option<nat>, path: string, k: nat) {
    && k < MAX_CANDIDATES && path == Candidate(name, k) && path !in dir
    && (forall j | 0 <= j < k :: Candidate(name, j) in dir)
    && (refusal.Some? ==> k < refusal.value)
  }

  lemma DestinationLands(dir: Directory, name: string, refusal: Option<nat>)
    ensures forall path :: Lands(dir, name, refusal, path) <==> Destination(dir, name, refusal) == Some(path)
  {
    var d := FirstFree(dir, name, 0);
    forall path ensures Lands(dir, name, refusal, path) <==> Destination(dir, name, refusal) == Some(path) {
      if Lands(dir, name, refusal, path) {
        var k: nat :| LandsAt(dir, name, refusal, path, k);
        FirstFreeIs(dir, name, 0, k);
      }
      if Destination(dir, name, refusal) == Some(path) {
        assert LandsAt(dir, name, refusal, path, d);
      }
    }
  }

  // ---------------------------------------------------------------- one message

  /** A message that ends a complete file, from somebody who may still transfer. */
  ghost predicate Completes(r: State, p: Packet, e: Env) {
    p.Finish? && r.file.Some? && r.remaining == 0 && e.allowed && e.flushOk && e.stillAllowed
  }

  /** A header that may open a file. */
  predicate Opens(r: State, slotFree: bool, p: Packet, e: Env) {
    && e.allowed && p.Header? && p.len <= MAX_HEADER && p.meta.Some?
    && var m := p.meta.value;
    && m.kind == "begin" && (m.transfer == r.transfer || (1 < p.len < MAX_HEADER && |m.transfer| == TRANSFER_ID))
    && 0 <= m.size <= r.batchRemaining && 1 <= r.batchCount && LocalName(m.name)
    && (slotFree || r.slot) && e.temp.Some?
  }

  /** A header that may announce a batch. */
  predicate Announces(p: Packet, e: Env) {
    && e.allowed && p.Header? && p.len <= MAX_HEADER && p.meta.Some?
    && var m := p.meta.value;
    && m.kind == "batch" && |m.transfer| == TRANSFER_ID && 1 <= m.count <= 100 && 0 <= m.total <= e.limit
  }

  /** Data that may be added to the open file. */
  predicate Adds(r: State, p: Packet, e: Env) {
    e.allowed && p.Chunk? && r.file.Some? && |p.data| <= MAX_CHUNK && |p.data| <= r.remaining && e.writeOk
  }

  lemma FinishCommits(r: State, dir: Directory, slotFree: bool, p: Packet, e: Env)
    ensures var out := Receive(r, dir, slotFree, p, e);
      forall path :: out.stored == Some(path) <==> Completes(r, p, e) && Lands(dir, r.name, e.refusal, path)
  {
    DestinationLands(dir, r.name, e.refusal);
  }

  lemma HeaderOpens(r: State, dir: Directory, slotFree: bool, p: Packet, e: Env)
    requires p.Header? && p.len <= MAX_HEADER && p.meta.Some?
    ensures var out := Receive(r, dir, slotFree, p, e); var m := p.meta.value;
      && (out.state.file.Some? <==> Opens(r, slotFree, p, e))
      && (Opens(r, slotFree, p, e) ==>
            && out.state.file == Some(Temp(e.temp.value, [])) && out.state.name == m.name
            && out.state.remaining == m.size && out.state.transfer == m.transfer && out.state.updated == e.now
            && out.state.batchRemaining == r.batchRemaining - m.size && out.state.batchCount == r.batchCount - 1)
      && (Announces(p, e) ==>
            out.state.transfer == m.transfer && out.state.batchRemaining == m.total && out.state.batchCount == m.count)
  {
  }

  lemma ChunkAdds(r: State, dir: Directory, slotFree: bool, p: Packet, e: Env)
    requires p.Chunk?
    ensures var out := Receive(r, dir, slotFree, p, e);
      && (out.state.file.Some? <==> Adds(r, p, e))
      && (Adds(r, p, e) ==>
            && out.state.file == Some(Temp(r.file.value.path, r.file.value.content + p.data))
            && out.state.name == r.name && out.state.updated == e.now)
  {
  }

  /** The answer to every message: each kind exactly when it is due, an error in all other cases, or silence. */
  lemma AnsweredExactly(r: State, dir: Directory, slotFree: bool, p: Packet, e: Env)
    ensures var reply := Receive(r, dir, slotFree, p, e).reply;
      && (reply == Some(BatchReady) <==> Announces(p, e))
      && (reply == Some(Ready) <==> Opens(r, slotFree, p, e))
      && (reply == Some(Saved) <==> Completes(r, p, e) && exists path :: Lands(dir, r.name, e.refusal, path))
      && (reply == Some(Cancelled) <==> p.Cancel? && e.allowed)
      && (reply == None <==>
            || Adds(r, p, e)
            || (e.allowed && (p.Empty? || p.Unknown? || (p.Header? && (p.len > MAX_HEADER || p.meta.None?)))))
  {
    DestinationLands(dir, r.name, e.refusal);
    if Destination(dir, r.name, e.refusal).Some? {
      assert Lands(dir, r.name, e.refusal, Destination(dir, r.name, e.refusal).value);
    }
  }

  /** Whoever may not transfer any more loses the open file, and a cancel ends file and batch. */
  lemma RefusalEndsFile(r: State, dir: Directory, slotFree: bool, p: Packet, e: Env)
    ensures var out := Receive(r, dir, slotFree, p, e);
      && (!e.allowed ==> out.state.file == None && out.reply == Some(Error) && out.stored == None)
      && (e.allowed && p.Cancel? ==>
            out.state.file == None && out.state.batchRemaining == 0 && out.state.batchCount == 0 && out.stored == None)
  {
  }

  // ---------------------------------------------------------------- whole runs

  /** The step hands the receiver a `Finish` for a complete file that may be committed, and a name is free for it. */
  ghost predicate CommitsIn(w: World, a: Action, path: string) {
    && a.Deliver? && a.id in w.receivers
    && var l := w.receivers[a.id];
    && a.p.Finish? && a.e.allowed && a.e.flushOk && a.e.stillAllowed
    && l.state.file.Some? && |l.state.file.value.content| == l.declared
    && Lands(w.dir, l.state.name, a.e.refusal, path)
  }

  /**
   Over every run of any number of receivers: a step changes the directory if and only if it ends a file that is as
   long as it was declared, for somebody who may transfer on entry and still may after the flush, under a name that
   can be committed, with a candidate free before any refusal; it then adds just that file under the first free name.
   */
  lemma CommitsExactly(actions: seq<Action>, dir: Directory, a: Action)
    ensures var w := Run(World(map[], 0, dir), actions); var w' := Step(w, a);
      && (w'.dir != w.dir <==> exists path :: CommitsIn(w, a, path))
      && forall path | CommitsIn(w, a, path) ::
           w'.dir == w.dir[path := w.receivers[a.id].state.file.value.content] && w'.receivers[a.id].state.file == None
  {
    var w := Run(World(map[], 0, dir), actions);
    AccountsBalance(actions, dir);
    if a.Deliver? && a.id in w.receivers {
      DeliveryCommits(w, a);
    }
  }

  lemma DeliveryCommits(w: World, a: Action)
    requires Inv(w) && a.Deliver? && a.id in w.receivers
    ensures var w' := Step(w, a);
      && (w'.dir != w.dir <==> exists path :: CommitsIn(w, a, path))
      && forall path | CommitsIn(w, a, path) ::
           w'.dir == w.dir[path := w.receivers[a.id].state.file.value.content] && w'.receivers[a.id].state.file == None
  {
    var w', r := Step(w, a), w.receivers[a.id].state;
    var out := Receive(r, w.dir, w.used < SLOTS, a.p, a.e);
    FinishCommits(r, w.dir, w.used < SLOTS, a.p, a.e);
    assert Consistent(w.receivers[a.id]);
    if out.stored.Some? {
      assert CommitsIn(w, a, out.stored.value);
      assert out.stored.value in w'.dir;
    }
  }

  /** How a file comes to be open, or to hold what it holds, in one receiver. */
  ghost predicate OpensOrAdds(w: World, a: Action, id: nat, before: Option<Temp>, after: Temp)
    requires id in w.receivers
  {
    && a.Deliver? && a.id == id
    && var l := w.receivers[id];
    || (Opens(l.state, w.used < SLOTS, a.p, a.e) && after == Temp(a.e.temp.value, []))
    || (Adds(l.state, a.p, a.e) && before.Some? && after == Temp(before.value.path, before.value.content + a.p.data))
  }

  /**
   Over every run: a receiver's open file is new or has new contents only after an authorised header that opens it
   or an authorised chunk that is within the declared size and reached the disk, and then holds exactly that.
   */
  lemma FilesGrowExactly(actions: seq<Action>, dir: Directory, a: Action, id: nat)
    requires id in Run(World(map[], 0, dir), actions).receivers
    ensures var w := Run(World(map[], 0, dir), actions); var w' := Step(w, a);
      var before, after := w.receivers[id].state.file, w'.receivers[id].state.file;
      && (after.Some? && after != before ==> OpensOrAdds(w, a, id, before, after.value))
      && (a.Deliver? && a.id == id && (Opens(w.receivers[id].state, w.used < SLOTS, a.p, a.e)
                                       || Adds(w.receivers[id].state, a.p, a.e))
          ==> after.Some? && OpensOrAdds(w, a, id, before, after.value))
  {
    var w := Run(World(map[], 0, dir), actions);
    if a.Deliver? && a.id == id {
      var r := w.receivers[id].state;
      if a.p.Header? && a.p.len <= MAX_HEADER && a.p.meta.Some? { HeaderOpens(r, w.dir, w.used < SLOTS, a.p, a.e); }
      if a.p.Chunk? { ChunkAdds(r, w.dir, w.used < SLOTS, a.p, a.e); }
    }
  }

  /** The watchdog gives up exactly the file it was armed for, once nothing has come for half a minute. */
  lemma WatchdogGivesUp(w: World, id: nat, path: string, now: int)
    requires id in w.receivers
    ensures var r, r' := w.receivers[id].state, Step(w, Fire(id, path, now)).receivers[id].state;
      var idle := r.file.Some? && r.file.value.path == path && now - r.updated >= WATCHDOG;
      (idle ==> r'.file == None && !r'.slot && !r'.timer) && (!idle ==> r' == r)
  {
  }
}
