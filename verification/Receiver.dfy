/**
 The receiving end of a file transfer (app/engine/files.go): one receiver per data channel, a shared
 pool of four slots, a watchdog per open file and the accounting of a batch.

 `Receive`, `Expire` and `Cleaned` say what one locked call does; the class follows the source and is
 proved to do that.  Module Accounting follows any number of receivers that share the pool.
 */
module Receiver {
  import opened Prelude
  import opened Uploads

  const SLOTS := 4
  const TRANSFER_ID := 32
  const MAX_HEADER := 4096
  const MAX_CHUNK := 32768
  const WATCHDOG := 30000

  /** A temporary file is recognised by its path, as the watchdog recognises the handle it was armed for. */
  datatype Temp = Temp(path: string, content: Bytes)

  datatype Meta = Meta(transfer: string, kind: string, name: string, size: int, total: int, count: int)

  /** A message by its first byte; `meta` is absent when the header is not valid JSON. */
  datatype Packet =
    | Empty
    | Header(len: nat, meta: Option<Meta>)
    | Chunk(data: Bytes)
    | Finish
    | Cancel
    | Unknown

  datatype Kind = BatchReady | Ready | Saved | Cancelled | Error

  datatype Ack = Ack(kind: Kind, transfer: string)

  /** What the surroundings answer while one message is handled. */
  datatype Env = Env(
    now: int,
    allowed: bool,         // CanTransfer on entry
    limit: int,            // the upload limit in force
    temp: Option<string>,  // the temporary file the system created, if the directory and it could be had
    writeOk: bool,
    written: nat,          // bytes that reached the file when the write failed
    flushOk: bool,
    stillAllowed: bool,    // CanTransfer just before the commit
    refusal: Option<nat>)  // attempt at which the move fails for a reason other than an existing name

  datatype State = State(
    file: Option<Temp>,
    name: string,
    remaining: int,
    batchRemaining: int,
    batchCount: int,
    transfer: string,
    updated: int,
    slot: bool,
    timer: bool)

  const FRESH := State(None, "", 0, 0, 0, "", 0, false, false)

  /** New state, reply, and the path a file was committed to. */
  datatype Outcome = Outcome(state: State, reply: Option<Kind>, stored: Option<string>)

  function Cleaned(r: State): State {
    r.(file := None, slot := false, timer := false)
  }

  function Failed(r: State): Outcome {
    Outcome(Cleaned(r), Some(Error), None)
  }

  /** Even an unauthorised header is allowed to name the transfer that the reply then carries. */
  predicate NamesTransfer(p: Packet) {
    p.Header? && 1 < p.len < MAX_HEADER && p.meta.Some? && |p.meta.value.transfer| == TRANSFER_ID
  }

  predicate BatchAdmissible(m: Meta, limit: int) {
    1 <= m.count <= 100 && 0 <= m.total <= limit
  }

  predicate FileAdmissible(r: State, m: Meta) {
    && m.kind == "begin" && m.transfer == r.transfer
    && 0 <= m.size <= r.batchRemaining && 1 <= r.batchCount
    && LocalName(m.name)
  }

  function ReceiveHeader(r: State, m: Meta, slotFree: bool, e: Env): Outcome {
    if m.kind == "batch" then
      if |m.transfer| != TRANSFER_ID then Outcome(r, Some(Error), None)
      else if !BatchAdmissible(m, e.limit) then
        Outcome(r.(transfer := m.transfer, batchRemaining := 0, batchCount := 0), Some(Error), None)
      else
        Outcome(r.(transfer := m.transfer, batchRemaining := m.total, batchCount := m.count), Some(BatchReady), None)
    else if !FileAdmissible(r, m) then Outcome(r, Some(Error), None)
    else
      var charged := r.(batchRemaining := r.batchRemaining - m.size, batchCount := r.batchCount - 1);
      if !slotFree || e.temp.None? then Outcome(charged, Some(Error), None)
      else
        Outcome(charged.(file := Some(Temp(e.temp.value, [])), name := m.name, remaining := m.size,
                         updated := e.now, slot := true, timer := true),
                Some(Ready), None)
  }

  function ReceiveChunk(r: State, data: Bytes, e: Env): Outcome {
    if r.file.None? || |data| > MAX_CHUNK || |data| > r.remaining then Failed(r)
    else if !e.writeOk then Failed(r.(remaining := r.remaining - if e.written < |data| then e.written else |data|))
    else
      Outcome(r.(file := Some(r.file.value.(content := r.file.value.content + data)),
                 remaining := r.remaining - |data|, updated := e.now),
              None, None)
  }

  function ReceiveFinish(r: State, dir: Directory, e: Env): Outcome {
    if r.file.None? || r.remaining != 0 || !e.flushOk || !e.stillAllowed then Failed(r)
    else
      var stored := Destination(dir, r.name, e.refusal);
      if stored.None? then Failed(r) else Outcome(Cleaned(r), Some(Saved), stored)
  }

  function Receive(r: State, dir: Directory, slotFree: bool, p: Packet, e: Env): Outcome {
    var named := if NamesTransfer(p) then r.(transfer := p.meta.value.transfer) else r;
    if !e.allowed then Failed(named)
    else match p
      case Header(len, meta) =>
        if len > MAX_HEADER || meta.None? then Outcome(named, None, None)
        else ReceiveHeader(Cleaned(named), meta.value, slotFree || named.slot, e)
      case Chunk(data) => ReceiveChunk(named, data, e)
      case Finish => ReceiveFinish(named, dir, e)
      case Cancel => Outcome(Cleaned(named.(batchRemaining := 0, batchCount := 0)), Some(Cancelled), None)
      case _ => Outcome(named, None, None)
  }

  /** The watchdog armed for `path`: a callback that comes late, or early, changes nothing. */
  function Expire(r: State, path: string, now: int): Outcome {
    if r.file.None? || r.file.value.path != path || now - r.updated < WATCHDOG then Outcome(r, None, None)
    else Failed(r)
  }

  function Placed(dir: Directory, r: State, stored: Option<string>): Directory {
    if stored.Some? && r.file.Some? then dir[stored.value := r.file.value.content] else dir
  }

  // ---------------------------------------------------------------- the source's own form

  class SlotPool {
    var used: nat

    constructor ()
      ensures used == 0
    {
      used := 0;
    }

    method TryAcquire() returns (ok: bool)
      modifies this
      ensures ok <==> old(used) < SLOTS
      ensures used == if ok then old(used) + 1 else old(used)
    {
      ok := used < SLOTS;
      if ok { used := used + 1; }
    }

    /** Receiving from an empty channel would block, so the caller owes a slot. */
    method Release()
      requires used > 0
      modifies this
      ensures used == old(used) - 1
    {
      used := used - 1;
    }
  }

  class FileReceiver {
    const pool: SlotPool
    const folder: Folder
    var file: Option<Temp>
    var name: string
    var remaining: int
    var batchRemaining: int
    var batchCount: int
    var transfer: string
    var updated: int
    var slot: bool
    var timer: bool

    function View(): (s: State)
      reads this
    {
      State(file, name, remaining, batchRemaining, batchCount, transfer, updated, slot, timer)
    }

    ghost predicate Valid()
      reads this, pool
    {
      slot ==> 0 < pool.used <= SLOTS
    }

    constructor (pool: SlotPool, folder: Folder)
      ensures View() == FRESH && this.pool == pool && this.folder == folder && Valid()
    {
      this.pool, this.folder := pool, folder;
      file, name, remaining, batchRemaining, batchCount := None, "", 0, 0, 0;
      transfer, updated, slot, timer := "", 0, false, false;
    }

    method Cleanup()
      requires Valid()
      modifies this, pool
      ensures Valid() && View() == Cleaned(old(View()))
      ensures pool.used == old(pool.used) - if old(slot) then 1 else 0
    {
      timer := false;
      file := None;
      if slot {
        pool.Release();
        slot := false;
      }
    }

    method Message(p: Packet, e: Env) returns (reply: Option<Ack>)
      requires Valid()
      modifies this, pool, folder
      ensures Valid()
      ensures var out := Receive(old(View()), old(folder.entries), old(pool.used) < SLOTS, p, e);
        && View() == out.state
        && reply == (if out.reply.Some? then Some(Ack(out.reply.value, transfer)) else None)
        && folder.entries == Placed(old(folder.entries), old(View()), out.stored)
      ensures pool.used == old(pool.used) - (if old(slot) then 1 else 0) + if slot then 1 else 0
    {
      if NamesTransfer(p) {
        transfer := p.meta.value.transfer;
      }
      if !e.allowed {
        Cleanup();
        return Some(Ack(Error, transfer));
      }
      match p {
        case Header(len, meta) =>
          if len > MAX_HEADER || meta.None? {
            return None;
          }
          Cleanup();
          reply := Open(meta.value, e);
        case Chunk(data) =>
          reply := Write(data, e);
        case Finish =>
          reply := Commit(e);
        case Cancel =>
          batchRemaining, batchCount := 0, 0;
          Cleanup();
          return Some(Ack(Cancelled, transfer));
        case _ =>
          return None;
      }
    }

    method Open(m: Meta, e: Env) returns (reply: Option<Ack>)
      requires Valid() && !slot && !timer && file.None?
      modifies this, pool
      ensures Valid()
      ensures var out := ReceiveHeader(old(View()), m, old(pool.used) < SLOTS, e);
        && View() == out.state && out.reply.Some? && reply == Some(Ack(out.reply.value, transfer))
      ensures pool.used == old(pool.used) + if slot then 1 else 0
    {
      if m.kind == "batch" {
        if |m.transfer| != TRANSFER_ID {
          return Some(Ack(Error, transfer));
        }
        transfer := m.transfer;
        batchRemaining, batchCount := 0, 0;
        if !BatchAdmissible(m, e.limit) {
          return Some(Ack(Error, transfer));
        }
        batchRemaining, batchCount := m.total, m.count;
        return Some(Ack(BatchReady, transfer));
      }
      if !FileAdmissible(View(), m) {
        return Some(Ack(Error, transfer));
      }
      batchRemaining, batchCount := batchRemaining - m.size, batchCount - 1;
      var ok := pool.TryAcquire();
      if !ok {
        return Some(Ack(Error, transfer));
      }
      slot := true;
      if e.temp.None? {
        Cleanup();
        return Some(Ack(Error, transfer));
      }
      file, name, remaining, updated := Some(Temp(e.temp.value, [])), m.name, m.size, e.now;
      timer := true;
      return Some(Ack(Ready, transfer));
    }

    method Write(data: Bytes, e: Env) returns (reply: Option<Ack>)
      requires Valid()
      modifies this, pool
      ensures Valid()
      ensures var out := ReceiveChunk(old(View()), data, e);
        && View() == out.state && out.stored.None?
        && reply == (if out.reply.Some? then Some(Ack(Error, transfer)) else None)
      ensures pool.used == old(pool.used) - (if old(slot) then 1 else 0) + if slot then 1 else 0
    {
      if file.None? || |data| > MAX_CHUNK || |data| > remaining {
        Cleanup();
        return Some(Ack(Error, transfer));
      }
      var n := if e.writeOk || e.written >= |data| then |data| else e.written;
      remaining := remaining - n;
      if !e.writeOk {
        Cleanup();
        return Some(Ack(Error, transfer));
      }
      file := Some(Temp(file.value.path, file.value.content + data));
      updated := e.now;
      return None;
    }

    method Commit(e: Env) returns (reply: Option<Ack>)
      requires Valid()
      modifies this, pool, folder
      ensures Valid()
      ensures var out := ReceiveFinish(old(View()), old(folder.entries), e);
        && View() == out.state && out.reply.Some? && reply == Some(Ack(out.reply.value, transfer))
        && folder.entries == Placed(old(folder.entries), old(View()), out.stored)
      ensures pool.used == old(pool.used) - (if old(slot) then 1 else 0) + if slot then 1 else 0
    {
      if file.None? || remaining != 0 {
        Cleanup();
        return Some(Ack(Error, transfer));
      }
      var content := file.value.content;
      file := None;
      var path := None;
      if e.flushOk && e.stillAllowed {
        path := folder.CommitUpload(content, name, e.refusal);
      }
      Cleanup();
      return Some(Ack(if path.None? then Error else Saved, transfer));
    }

    method Watchdog(path: string, now: int) returns (reply: Option<Ack>)
      requires Valid()
      modifies this, pool
      ensures Valid()
      ensures var out := Expire(old(View()), path, now);
        && View() == out.state && reply == (if out.reply.Some? then Some(Ack(Error, transfer)) else None)
      ensures pool.used == old(pool.used) - (if old(slot) then 1 else 0) + if slot then 1 else 0
    {
      if file.None? || file.value.path != path || now - updated < WATCHDOG {
        return None;
      }
      Cleanup();
      return Some(Ack(Error, transfer));
    }
  }
}
