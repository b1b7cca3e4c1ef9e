/**
 Lossy video queues (app/engine/video.go, core/desktop/security.go) and the two byte scans that decide
 what counts as a keyframe (app/engine/video.go, core/encoder/h264_encoder.cpp).

 A frame carries the number it has in its own session's stream; the code never reads that number.
 An enqueue is atomic against dequeues.
 */
module Video {
  import opened Prelude

  // ---------------------------------------------------------------- keyframe scans

  /** `h` is the header byte of a NAL unit in the byte stream format of Annex B of ITU-T H.264. */
  predicate UnitAt(d: Bytes, h: nat) {
    3 <= h < |d| && d[h - 3] == 0 && d[h - 2] == 0 && d[h - 1] == 1
  }

  /** The low five bits of a header byte; 5 is a slice of an IDR picture and 7 a sequence parameter set (Table 7-1). */
  function UnitType(d: Bytes, h: nat): int
    requires h < |d|
  {
    d[h] % 32
  }

  /**
   What the client calls a keyframe: an IDR slice, whose header may be the very last byte only behind a long
   start code.
   */
  ghost predicate ClientKey(d: Bytes) {
    exists h: nat :: UnitAt(d, h) && UnitType(d, h) == 5 && (h + 1 < |d| || (h >= 4 && d[h - 4] == 0))
  }

  /** What the host calls a keyframe: an IDR slice or a parameter set, whose header is not the last byte. */
  ghost predicate HostKey(d: Bytes) {
    exists h: nat :: UnitAt(d, h) && (UnitType(d, h) == 5 || UnitType(d, h) == 7) && h + 1 < |d|
  }

  method AnnexKeyframe(data: Bytes) returns (key: bool)
    ensures key <==> ClientKey(data)
  {
    var i := 0;
    while i + 4 < |data|
      invariant 0 <= i
      invariant forall h: nat | UnitAt(data, h) && UnitType(data, h) == 5 ::
                  i + 3 <= h && (h >= 4 && data[h - 4] == 0 ==> i + 4 <= h)
    {
      if data[i] == 0 && data[i + 1] == 0 && (data[i + 2] == 1 || (data[i + 2] == 0 && data[i + 3] == 1)) {
        var offset := if data[i + 2] == 0 then 4 else 3;
        if data[i + offset] % 32 == 5 {
          assert UnitAt(data, i + offset);
          return true;
        }
      }
      i := i + 1;
    }
    return false;
  }

  method EncoderKeyframe(data: Bytes) returns (key: bool)
    ensures key <==> HostKey(data)
  {
    var i := 0;
    while i < |data| - 4
      invariant 0 <= i
      invariant forall h: nat | h < i + 3 && h + 1 < |data| && UnitAt(data, h) ::
                  UnitType(data, h) != 5 && UnitType(data, h) != 7
    {
      if data[i] == 0 && data[i + 1] == 0 && data[i + 2] == 1 {
        var nalType := data[i + 3] % 32;
        if nalType == 5 || nalType == 7 {
          assert UnitAt(data, i + 3);
          return true;
        }
      }
      i := i + 1;
    }
    return false;
  }

  /** A host keyframe is a client keyframe exactly when it has an IDR header that the client can see. */
  ghost predicate ParameterSetsOnly(d: Bytes) {
    && (exists h: nat :: UnitAt(d, h) && h + 1 < |d| && UnitType(d, h) == 7)
    && (forall h: nat | UnitAt(d, h) && UnitType(d, h) == 5 :: h + 1 == |d| && (h == 3 || d[h - 4] != 0))
  }

  /** A client keyframe the host does not announce: its only such header is the last byte. */
  ghost predicate TrailingHeaderOnly(d: Bytes) {
    && |d| >= 5 && UnitAt(d, |d| - 1) && UnitType(d, |d| - 1) == 5 && d[|d| - 5] == 0
    && forall h: nat | UnitAt(d, h) && h + 1 < |d| :: UnitType(d, h) != 5 && UnitType(d, h) != 7
  }

  /** The two scans disagree on exactly two families of access units. */
  lemma KeyTestsCompared(d: Bytes)
    ensures HostKey(d) && !ClientKey(d) <==> ParameterSetsOnly(d)
    ensures ClientKey(d) && !HostKey(d) <==> TrailingHeaderOnly(d)
  {
    if ClientKey(d) && !HostKey(d) {
      var h: nat :| UnitAt(d, h) && UnitType(d, h) == 5 && (h + 1 < |d| || (h >= 4 && d[h - 4] == 0));
      assert h + 1 == |d|;
    }
  }

  // ---------------------------------------------------------------- what a viewer is owed

  /** A frame that reached the consumer; `raced` when it was taken out in the middle of a drain. */
  datatype Shown = Shown(nr: nat, key: bool, raced: bool)

  /** Every frame is a keyframe, or follows the frame shown just before it, or was taken during a drain. */
  ghost predicate Contiguous(w: seq<Shown>) {
    forall j | 0 <= j < |w| :: w[j].key || w[j].raced || (j > 0 && w[j - 1].nr + 1 == w[j].nr)
  }

  lemma ContiguousMore(w: seq<Shown>, x: Shown)
    ensures Contiguous(w + [x]) <==> Contiguous(w) && (x.key || x.raced || (w != [] && w[|w| - 1].nr + 1 == x.nr))
  {
    var all := w + [x];
    assert all[|w|] == x && forall j | 0 <= j < |w| :: all[j] == w[j];
  }

  // ---------------------------------------------------------------- the client's queue, shared by its sessions

  const CAPACITY := 3
  const MAX_FRAME := 33554432
  const KEY_INTERVAL := 2000

  datatype Frame = Frame(session: string, nr: nat, data: Bytes)

  datatype Gate = Gate(waiting: set<string>, frames: seq<Frame>, requested: map<string, int>)

  function Sessions(frames: seq<Frame>): set<string> {
    set f | f in frames :: f.session
  }

  /** When a keyframe was last asked for, after asking for `who`: at most once in two seconds each. */
  function Asked(requested: map<string, int>, who: set<string>, now: int): map<string, int> {
    map s | s in requested.Keys + who ::
      if s in who && (s !in requested || now - requested[s] > KEY_INTERVAL) then now else requested[s]
  }

  /** Those of `who` that are asked at `now`. */
  function Due(requested: map<string, int>, who: set<string>, now: int): set<string> {
    set s | s in who && (s !in requested || now - requested[s] > KEY_INTERVAL)
  }

  /** The part of a queue the consumer won, or lost, while it was drained. */
  function Split(frames: seq<Frame>, taken: seq<bool>, won: bool): seq<Frame>
    requires |frames| == |taken|
  {
    if frames == [] then []
    else (if taken[0] == won then [frames[0]] else []) + Split(frames[1..], taken[1..], won)
  }

  lemma AskedTwice(requested: map<string, int>, a: set<string>, b: set<string>, now: int)
    ensures Asked(Asked(requested, a, now), b, now) == Asked(requested, a + b, now)
    ensures Due(requested, a, now) + Due(Asked(requested, a, now), b, now) == Due(requested, a + b, now)
  {
  }

  lemma SplitHead(frames: seq<Frame>, taken: seq<bool>)
    requires |frames| == |taken| > 0
    ensures Split(frames, taken, true) == (if taken[0] then [frames[0]] else []) + Split(frames[1..], taken[1..], true)
    ensures Sessions(Split(frames, taken, false))
         == (if taken[0] then {} else {frames[0].session}) + Sessions(Split(frames[1..], taken[1..], false))
  {
    if !taken[0] {
      var rest := Split(frames[1..], taken[1..], false);
      assert Split(frames, taken, false) == [frames[0]] + rest;
      assert forall f | f in [frames[0]] + rest :: f == frames[0] || f in rest;
    }
  }

  ghost function Emitted(g: Gate, f: Frame, now: int, taken: seq<bool>): Gate
    requires |taken| == |g.frames|
  {
    if |f.data| > MAX_FRAME then g
    else if f.session in g.waiting && !ClientKey(f.data) then
      g.(requested := Asked(g.requested, {f.session}, now))
    else if |g.frames| == CAPACITY then
      var lost := Sessions(Split(g.frames, taken, false));
      Gate(if ClientKey(f.data) then g.waiting + lost - {f.session} else g.waiting + lost + {f.session},
           if ClientKey(f.data) then [f] else [],
           Asked(g.requested, lost + {f.session}, now))
    else Gate(g.waiting - {f.session}, g.frames + [f], g.requested)
  }

  /** What the consumer took while the queue was drained for `f`. */
  ghost function Raced(g: Gate, f: Frame, taken: seq<bool>): seq<Frame>
    requires |taken| == |g.frames|
  {
    if |f.data| > MAX_FRAME || (f.session in g.waiting && !ClientKey(f.data)) || |g.frames| != CAPACITY then []
    else Split(g.frames, taken, true)
  }

  /** The sessions that are asked for a keyframe. */
  ghost function Requests(g: Gate, f: Frame, now: int, taken: seq<bool>): set<string>
    requires |taken| == |g.frames|
  {
    if |f.data| > MAX_FRAME then {}
    else if f.session in g.waiting && !ClientKey(f.data) then Due(g.requested, {f.session}, now)
    else if |g.frames| == CAPACITY then
      Due(g.requested, Sessions(Split(g.frames, taken, false)) + {f.session}, now)
    else {}
  }

  class Engine {
    var waitingKey: set<string>
    var frames: seq<Frame>
    var keyRequested: map<string, int>

    function View(): (g: Gate)
      reads this
    {
      Gate(waitingKey, frames, keyRequested)
    }

    constructor ()
      ensures View() == Gate({}, [], map[])
    {
      waitingKey, frames, keyRequested := {}, [], map[];
    }

    method Request(sid: string, now: int) returns (asked: set<string>)
      modifies this`keyRequested
      ensures keyRequested == Asked(old(keyRequested), {sid}, now)
      ensures asked == Due(old(keyRequested), {sid}, now)
    {
      asked := {};
      if sid !in keyRequested || now - keyRequested[sid] > KEY_INTERVAL {
        keyRequested := keyRequested[sid := now];
        asked := {sid};
      }
    }

    /**
     `taken` says, for each queued frame, whether the consumer or the drain gets it; `close` asks for the end of
     the session, and `asked` are the sessions that are asked for a keyframe.
     */
    method EmitVideo(f: Frame, now: int, taken: seq<bool>)
      returns (raced: seq<Frame>, close: bool, asked: set<string>)
      requires |taken| == |frames| <= CAPACITY
      modifies this
      ensures View() == Emitted(old(View()), f, now, taken)
      ensures raced == Raced(old(View()), f, taken)
      ensures asked == Requests(old(View()), f, now, taken)
      ensures close <==> |f.data| > MAX_FRAME
      ensures |frames| <= CAPACITY
    {
      raced, close, asked := [], |f.data| > MAX_FRAME, {};
      if close {
        return;
      }
      var key := AnnexKeyframe(f.data);
      if f.session in waitingKey && !key {
        asked := Request(f.session, now);
        return;
      }
      if |frames| == CAPACITY {
        raced, asked := Drain(now, taken);
        AskedTwice(old(keyRequested), Sessions(Split(old(frames), taken, false)), {f.session}, now);
        waitingKey := waitingKey + {f.session};
        var more := Request(f.session, now);
        asked := asked + more;
        if !key {
          return;
        }
      }
      waitingKey := waitingKey - {f.session};
      frames := frames + [f];
    }

    method Lose(sid: string, ghost gone: set<string>, ghost before: map<string, int>, now: int)
      returns (asked: set<string>)
      requires keyRequested == Asked(before, gone, now)
      modifies this`waitingKey, this`keyRequested
      ensures waitingKey == old(waitingKey) + {sid}
      ensures keyRequested == Asked(before, gone + {sid}, now)
      ensures Due(before, gone, now) + asked == Due(before, gone + {sid}, now)
    {
      AskedTwice(before, gone, {sid}, now);
      waitingKey := waitingKey + {sid};
      asked := Request(sid, now);
    }

    /** One round of the drain: the oldest frame went to the consumer, or is dropped. */
    method DrainOne(now: int, left: seq<bool>, ghost gone: set<string>, ghost before: map<string, int>)
      returns (raced: seq<Frame>, asked: set<string>, ghost lost: set<string>)
      requires |left| == |frames| > 0 && keyRequested == Asked(before, gone, now)
      modifies this
      ensures |frames| == |left| - 1
      ensures Split(old(frames), left, true) == raced + Split(frames, left[1..], true)
      ensures Sessions(Split(old(frames), left, false)) == lost + Sessions(Split(frames, left[1..], false))
      ensures waitingKey == old(waitingKey) + lost && keyRequested == Asked(before, gone + lost, now)
      ensures Due(before, gone, now) + asked == Due(before, gone + lost, now)
    {
      SplitHead(frames, left);
      var head := frames[0];
      frames := frames[1..];
      if left[0] {
        raced, asked, lost := [head], {}, {};
        assert gone + {} == gone;
      } else {
        raced, lost := [], {head.session};
        asked := Lose(head.session, gone, before, now);
      }
    }

    method Drain(now: int, taken: seq<bool>) returns (raced: seq<Frame>, asked: set<string>)
      requires |taken| == |frames|
      modifies this
      ensures frames == [] && raced == Split(old(frames), taken, true)
      ensures waitingKey == old(waitingKey) + Sessions(Split(old(frames), taken, false))
      ensures keyRequested == Asked(old(keyRequested), Sessions(Split(old(frames), taken, false)), now)
      ensures asked == Due(old(keyRequested), Sessions(Split(old(frames), taken, false)), now)
    {
      raced, asked := [], {};
      var left := taken;
      ghost var gone, lost := {}, Sessions(Split(frames, taken, false));
      assert Asked(keyRequested, {}, now) == keyRequested && Due(keyRequested, {}, now) == {};
      while frames != []
        invariant |left| == |frames|
        invariant raced + Split(frames, left, true) == Split(old(frames), taken, true)
        invariant gone + Sessions(Split(frames, left, false)) == lost
        invariant waitingKey == old(waitingKey) + gone
        invariant keyRequested == Asked(old(keyRequested), gone, now) && asked == Due(old(keyRequested), gone, now)
        decreases |frames|
      {
        var won, more, one := DrainOne(now, left, gone, old(keyRequested));
        assert raced + (won + Split(frames, left[1..], true)) == raced + won + Split(frames, left[1..], true);
        raced, asked := raced + won, asked + more;
        gone := gone + one;
        left := left[1..];
      }
    }
  }

  // ---------------------------------------------------------------- runs of the client's queue

  datatype Viewer = Viewer(g: Gate, count: map<string, nat>, shown: seq<(string, Shown)>, closed: set<string>)

  /** Closing is asynchronous: `Close` is the moment at which it forgets the gate. */
  datatype Event =
    | Open(session: string)
    | Close(session: string)
    | Emit(session: string, data: Bytes, now: int, taken: seq<bool>)
    | Deliver

  const START := Viewer(Gate({}, [], map[]), map[], [], {})

  ghost function Tag(frames: seq<Frame>, raced: bool): (s: seq<(string, Shown)>)
    ensures |s| == |frames|
    ensures forall i | 0 <= i < |s| ::
              s[i] == (frames[i].session, Shown(frames[i].nr, ClientKey(frames[i].data), raced))
  {
    seq(|frames|, i requires 0 <= i < |frames| =>
      (frames[i].session, Shown(frames[i].nr, ClientKey(frames[i].data), raced)))
  }

  ghost function Step(v: Viewer, ev: Event): Viewer {
    match ev
    case Open(s) =>
      if s in v.count then v  // session identifiers are random and not reused
      else v.(g := v.g.(waiting := v.g.waiting + {s}), count := v.count[s := 0])
    case Close(s) =>
      if s !in v.count || s in v.closed then v
      else v.(g := v.g.(waiting := v.g.waiting - {s}, requested := v.g.requested - {s}), closed := v.closed + {s})
    case Emit(s, data, now, taken) =>
      if s !in v.count || |taken| != |v.g.frames| then v
      else
        var f := Frame(s, v.count[s], data);
        Viewer(Emitted(v.g, f, now, taken), v.count[s := v.count[s] + 1],
               v.shown + Tag(Raced(v.g, f, taken), true), v.closed)
    case Deliver =>
      if v.g.frames == [] then v
      else v.(g := v.g.(frames := v.g.frames[1..]), shown := v.shown + Tag([v.g.frames[0]], false))
  }

  ghost function Run(v: Viewer, events: seq<Event>): Viewer {
    if events == [] then v else Step(Run(v, events[..|events| - 1]), events[|events| - 1])
  }

  /** Shown so far, followed by what is still queued. */
  ghost function Known(v: Viewer): seq<(string, Shown)> {
    v.shown + Tag(v.g.frames, false)
  }

  /** One session's share of what was shown. */
  function Of(all: seq<(string, Shown)>, s: string): seq<Shown> {
    if all == [] then []
    else
      var k := |all| - 1;
      Of(all[..k], s) + if all[k].0 == s then [all[k].1] else []
  }

  /** The number of a session's last frame, or -1. */
  function Last(all: seq<(string, Shown)>, s: string): int {
    if all == [] then -1
    else
      var x := all[|all| - 1];
      if x.0 == s then x.1.nr else Last(all[..|all| - 1], s)
  }

  /** The last frame a session emitted is shown or queued. */
  ghost predicate Whole(v: Viewer, s: string) {
    s in v.count && Last(Known(v), s) + 1 == v.count[s] > 0
  }

  // ---------------------------------------------------------------- what a caller can see

  datatype Mark = Fine | Oversized | Shut

  /** An emission that takes place: the session exists and the drain's outcome fits the queue. */
  ghost predicate Takes(v: Viewer, ev: Event, s: string) {
    ev.Emit? && ev.session == s && s in v.count && |ev.taken| == |v.g.frames|
  }

  /**
   The last thing of note that happened to a session: its last frame was over the limit, or it was closed while
   it waited for a keyframe and its last frame had been lost.
   */
  ghost function MarkOf(events: seq<Event>, s: string): Mark {
    if events == [] then Fine
    else
      var k := |events| - 1;
      var v, ev := Run(START, events[..k]), events[k];
      if Takes(v, ev, s) then if |ev.data| > MAX_FRAME then Oversized else Fine
      else if ev == Close(s) && s in v.count && s !in v.closed && s in v.g.waiting && !Whole(v, s) then Shut
      else MarkOf(events[..k], s)
  }

  /** The numbers of the deltas that found their gate open and the session marked. */
  ghost function Slips(events: seq<Event>, s: string): set<nat> {
    if events == [] then {}
    else
      var k := |events| - 1;
      Slips(events[..k], s)
      + if Slip(Run(START, events[..k]), events[k], s, MarkOf(events[..k], s))
          then {Run(START, events[..k]).count[s]} else {}
  }

  ghost predicate Slip(v: Viewer, ev: Event, s: string, mark: Mark) {
    Takes(v, ev, s) && |ev.data| <= MAX_FRAME && !ClientKey(ev.data)
    && s !in v.g.waiting && |v.g.frames| < CAPACITY && mark != Fine
  }

  // ---------------------------------------------------------------- order

  /**
   A session's frames come in rising order, and a frame that was not won in a drain is a keyframe or follows the
   one before it exactly if it is not among the slips.
   */
  ghost predicate Ok(all: seq<(string, Shown)>, s: string, slips: set<nat>) {
    all == [] ||
      var before, x := all[..|all| - 1], all[|all| - 1];
      && Ok(before, s, slips)
      && (x.0 == s ==> Last(before, s) < x.1.nr)
      && (x.0 == s && !x.1.raced ==> (x.1.key || Last(before, s) + 1 == x.1.nr > 0 <==> x.1.nr !in slips))
  }

  lemma {:induction false} LastOf(all: seq<(string, Shown)>, s: string)
    ensures Last(all, s) == if Of(all, s) == [] then -1 else Of(all, s)[|Of(all, s)| - 1].nr
    ensures Last(all, s) >= -1
  {
    if all == [] {
    } else {
      LastOf(all[..|all| - 1], s);
    }
  }

  lemma {:induction false} OkContiguity(all: seq<(string, Shown)>, s: string, slips: set<nat>)
    requires Ok(all, s, slips)
    ensures Contiguous(Of(all, s)) <==> forall x | x in Of(all, s) :: x.raced || x.nr !in slips
  {
    if all == [] {
    } else {
      var before, x := all[..|all| - 1], all[|all| - 1];
      var of := Of(before, s);
      OkContiguity(before, s, slips);
      LastOf(before, s);
      if x.0 == s {
        assert Of(all, s) == of + [x.1];
        ContiguousMore(of, x.1);
        assert forall y :: y in of + [x.1] <==> y in of || y == x.1;
      } else {
        assert Of(all, s) == of + [] == of;
      }
    }
  }

  lemma {:induction false} LastNone(a: seq<(string, Shown)>, s: string, slips: set<nat>)
    requires forall x | x in a :: x.0 != s
    ensures Last(a, s) == -1 && Ok(a, s, slips)
  {
    if a == [] {
    } else {
      LastNone(a[..|a| - 1], s, slips);
    }
  }

  lemma {:induction false} OkPrefix(a: seq<(string, Shown)>, b: seq<(string, Shown)>, s: string, slips: set<nat>)
    requires Ok(a + b, s, slips)
    ensures Ok(a, s, slips)
  {
    if b == [] {
      assert a + b == a;
    } else {
      assert (a + b)[..|a + b| - 1] == a + b[..|b| - 1];
      OkPrefix(a, b[..|b| - 1], s, slips);
    }
  }

  /** A number above all that is known can join the slips. */
  lemma {:induction false} OkMore(all: seq<(string, Shown)>, s: string, slips: set<nat>, n: nat)
    requires Ok(all, s, slips) && Last(all, s) < n
    ensures Ok(all, s, slips + {n})
  {
    if all == [] {
    } else {
      OkMore(all[..|all| - 1], s, slips, n);
    }
  }

  // The same notions from the head of a queue on; `low` is the last number before it.

  function LastFrom(low: int, q: seq<Frame>, s: string): int
    decreases q
  {
    if q == [] then low else LastFrom(if q[0].session == s then q[0].nr else low, q[1..], s)
  }

  predicate Rises(low: int, q: seq<Frame>, s: string)
    decreases q
  {
    q == [] || if q[0].session == s then low < q[0].nr && Rises(q[0].nr, q[1..], s) else Rises(low, q[1..], s)
  }

  lemma TagHead(a: seq<(string, Shown)>, q: seq<Frame>, raced: bool)
    requires q != []
    ensures a + Tag(q, raced) == a + Tag([q[0]], raced) + Tag(q[1..], raced)
    ensures forall s :: Last(a + Tag([q[0]], raced), s) == if q[0].session == s then q[0].nr else Last(a, s)
  {
    var one, rest := Tag([q[0]], raced), Tag(q[1..], raced);
    assert Tag(q, raced) == one + rest;
    assert a + (one + rest) == a + one + rest;
    assert (a + one)[..|a + one| - 1] == a;
  }

  lemma {:induction false} LastAfter(a: seq<(string, Shown)>, q: seq<Frame>, raced: bool, s: string)
    ensures Last(a + Tag(q, raced), s) == LastFrom(Last(a, s), q, s)
    decreases q
  {
    if q == [] {
      assert a + Tag(q, raced) == a;
    } else {
      TagHead(a, q, raced);
      LastAfter(a + Tag([q[0]], raced), q[1..], raced, s);
    }
  }

  lemma {:induction false} OkRises(a: seq<(string, Shown)>, q: seq<Frame>, s: string, slips: set<nat>)
    requires Ok(a + Tag(q, false), s, slips)
    ensures Rises(Last(a, s), q, s)
    decreases q
  {
    if q == [] {
    } else {
      TagHead(a, q, false);
      var one := a + Tag([q[0]], false);
      OkPrefix(one, Tag(q[1..], false), s, slips);
      assert one[..|one| - 1] == a;
      OkRises(one, q[1..], s, slips);
    }
  }

  lemma {:induction false} RisesFromLower(low: int, more: int, q: seq<Frame>, s: string)
    requires Rises(more, q, s) && low <= more
    ensures Rises(low, q, s)
    decreases q
  {
    if q == [] {
    } else if q[0].session != s {
      RisesFromLower(low, more, q[1..], s);
    }
  }

  /** What the consumer wins in a drain keeps the order. */
  lemma {:induction false} WonIsOk(a: seq<(string, Shown)>, q: seq<Frame>, taken: seq<bool>, s: string, slips: set<nat>)
    requires Ok(a, s, slips) && |q| == |taken| && Rises(Last(a, s), q, s)
    ensures Ok(a + Tag(Split(q, taken, true), true), s, slips)
    decreases q
  {
    var won := Split(q, taken, true);
    if q == [] {
      assert a + Tag(won, true) == a;
    } else if taken[0] {
      var one := a + Tag([q[0]], true);
      assert won[0] == q[0] && won[1..] == Split(q[1..], taken[1..], true);
      TagHead(a, won, true);
      assert one[..|one| - 1] == a;
      WonIsOk(one, q[1..], taken[1..], s, slips);
    } else {
      assert won == Split(q[1..], taken[1..], true);
      if q[0].session == s { RisesFromLower(Last(a, s), q[0].nr, q[1..], s); }
      WonIsOk(a, q[1..], taken[1..], s, slips);
    }
  }

  lemma {:induction false} LastFromHigher(low: int, more: int, q: seq<Frame>, s: string)
    requires low <= more
    ensures LastFrom(low, q, s) <= LastFrom(more, q, s)
    decreases q
  {
    if q == [] {
    } else if q[0].session != s {
      LastFromHigher(low, more, q[1..], s);
    }
  }

  /** A drain takes nothing newer out than was in; a session that lost nothing ends where it ended. */
  lemma {:induction false} DrainedLast(low: int, q: seq<Frame>, taken: seq<bool>, s: string)
    requires |q| == |taken| && Rises(low, q, s)
    ensures LastFrom(low, Split(q, taken, true), s) <= LastFrom(low, q, s)
    ensures s !in Sessions(Split(q, taken, false)) ==> LastFrom(low, Split(q, taken, true), s) == LastFrom(low, q, s)
    decreases q
  {
    if q == [] {
    } else {
      var next := if q[0].session == s then q[0].nr else low;
      var won := Split(q[1..], taken[1..], true);
      SplitHead(q, taken);
      DrainedLast(next, q[1..], taken[1..], s);
      if taken[0] {
        assert Split(q, taken, true) == [q[0]] + won;
      } else {
        assert Split(q, taken, true) == won;
        LastFromHigher(low, next, won, s);
      }
    }
  }

  // ---------------------------------------------------------------- every step keeps the order

  /** What holds of one session, given what the run so far says about it. */
  ghost predicate Kept(v: Viewer, s: string, slips: set<nat>, mark: Mark) {
    if s in v.count then
      && Ok(Known(v), s, slips) && Last(Known(v), s) < v.count[s] && (forall k | k in slips :: k < v.count[s])
      && (mark != Fine ==> !Whole(v, s))
      && (s !in v.g.waiting && mark == Fine ==> Whole(v, s))
    else
      mark == Fine && slips == {} && forall x | x in Known(v) :: x.0 != s
  }

  ghost predicate Inv(events: seq<Event>, s: string) {
    Kept(Run(START, events), s, Slips(events, s), MarkOf(events, s))
  }

  /** The queue after a drain that ends with frame f or with nothing. */
  lemma DrainKeeps(v: Viewer, taken: seq<bool>, s: string, slips: set<nat>)
    requires s in v.count && |taken| == |v.g.frames| && Ok(Known(v), s, slips) && Last(Known(v), s) < v.count[s]
    ensures var after := v.shown + Tag(Split(v.g.frames, taken, true), true);
      && Ok(after, s, slips) && Last(after, s) <= Last(Known(v), s)
      && (s !in Sessions(Split(v.g.frames, taken, false)) ==> Last(after, s) == Last(Known(v), s))
  {
    var q, won := v.g.frames, Split(v.g.frames, taken, true);
    OkPrefix(v.shown, Tag(q, false), s, slips);
    OkRises(v.shown, q, s, slips);
    WonIsOk(v.shown, q, taken, s, slips);
    LastAfter(v.shown, q, false, s);
    LastAfter(v.shown, won, true, s);
    DrainedLast(Last(v.shown, s), q, taken, s);
  }

  lemma AppendOther(all: seq<(string, Shown)>, f: Frame, s: string, slips: set<nat>)
    requires Ok(all, s, slips) && f.session != s
    ensures var all' := all + Tag([f], false); Ok(all', s, slips) && Last(all', s) == Last(all, s)
  {
    var all' := all + Tag([f], false);
    assert all'[..|all'| - 1] == all;
  }

  /** A session's own frame joins: as a slip exactly if it is a delta that does not follow. */
  lemma AppendOwn(all: seq<(string, Shown)>, f: Frame, slips: set<nat>)
    requires Ok(all, f.session, slips) && Last(all, f.session) < f.nr && f.nr !in slips
    ensures var all', slip := all + Tag([f], false), !ClientKey(f.data) && !(Last(all, f.session) + 1 == f.nr > 0);
      && Last(all', f.session) == f.nr
      && Ok(all', f.session, slips + if slip then {f.nr} else {})
  {
    var s, all' := f.session, all + Tag([f], false);
    var slip := !ClientKey(f.data) && !(Last(all, s) + 1 == f.nr > 0);
    assert all'[..|all'| - 1] == all;
    if slip { OkMore(all, s, slips, f.nr); } else { assert slips + {} == slips; }
  }

  /** A frame that is discarded at once leaves what is known alone. */
  ghost predicate Discards(v: Viewer, s: string, data: Bytes) {
    |data| > MAX_FRAME || (s in v.g.waiting && !ClientKey(data))
  }

  lemma DiscardedKeepsKnown(v: Viewer, ev: Event)
    requires ev.Emit? && Takes(v, ev, ev.session) && Discards(v, ev.session, ev.data)
    ensures Known(Step(v, ev)) == Known(v) && Step(v, ev).g.waiting == v.g.waiting
  {
    assert v.shown + Tag([], true) == v.shown;
  }

  lemma QueuedGrowsKnown(v: Viewer, ev: Event)
    requires ev.Emit? && Takes(v, ev, ev.session) && !Discards(v, ev.session, ev.data) && |v.g.frames| < CAPACITY
    ensures Known(Step(v, ev)) == Known(v) + Tag([Frame(ev.session, v.count[ev.session], ev.data)], false)
    ensures Step(v, ev).g.waiting == v.g.waiting - {ev.session}
  {
    var f := Frame(ev.session, v.count[ev.session], ev.data);
    assert v.shown + [] == v.shown;
    assert Tag(v.g.frames + [f], false) == Tag(v.g.frames, false) + Tag([f], false);
    assert v.shown + (Tag(v.g.frames, false) + Tag([f], false)) == Known(v) + Tag([f], false);
  }

  lemma OverflowLeaves(v: Viewer, ev: Event)
    requires ev.Emit? && Takes(v, ev, ev.session) && !Discards(v, ev.session, ev.data) && |v.g.frames| == CAPACITY
    ensures var after := v.shown + Tag(Split(v.g.frames, ev.taken, true), true);
      var f, key := Frame(ev.session, v.count[ev.session], ev.data), ClientKey(ev.data);
      var lost, who := Sessions(Split(v.g.frames, ev.taken, false)), {ev.session};
      && Known(Step(v, ev)) == (if key then after + Tag([f], false) else after)
      && Step(v, ev).g.waiting == if key then v.g.waiting + lost - who else v.g.waiting + lost + who
  {
    var after := v.shown + Tag(Split(v.g.frames, ev.taken, true), true);
    assert after + Tag([], false) == after;
  }

  /** Whether the queued frame is a slip can be told from what is known so far. */
  lemma SlipIsGap(v: Viewer, ev: Event, s: string, slips: set<nat>, mark: Mark)
    requires Kept(v, s, slips, mark) && Takes(v, ev, s) && !Discards(v, s, ev.data) && |v.g.frames| < CAPACITY
    ensures Slip(v, ev, s, mark) <==> !ClientKey(ev.data) && !(Last(Known(v), s) + 1 == v.count[s] > 0)
  {
  }

  /** A session whose last frame is known is kept. */
  lemma KeptWhole(v: Viewer, s: string, slips: set<nat>)
    requires s in v.count && Ok(Known(v), s, slips) && Last(Known(v), s) + 1 == v.count[s] > 0
    requires forall k | k in slips :: k < v.count[s]
    ensures Kept(v, s, slips, Fine)
  {
  }

  lemma OwnQueued(v: Viewer, ev: Event, s: string, slips: set<nat>, mark: Mark)
    requires Kept(v, s, slips, mark) && Takes(v, ev, s) && !Discards(v, s, ev.data) && |v.g.frames| < CAPACITY
    ensures Kept(Step(v, ev), s, slips + if Slip(v, ev, s, mark) then {v.count[s]} else {}, Fine)
  {
    SlipIsGap(v, ev, s, slips, mark);
    QueuedGrowsKnown(v, ev);
    AppendOwn(Known(v), Frame(s, v.count[s], ev.data), slips);
    KeptWhole(Step(v, ev), s, slips + if Slip(v, ev, s, mark) then {v.count[s]} else {});
  }

  lemma OwnLoss(v: Viewer, ev: Event, s: string, slips: set<nat>, mark: Mark)
    requires Kept(v, s, slips, mark) && Takes(v, ev, s) && |ev.data| <= MAX_FRAME && !ClientKey(ev.data)
    requires s !in v.g.waiting && |v.g.frames| == CAPACITY
    ensures Kept(Step(v, ev), s, slips, Fine)
  {
    OverflowLeaves(v, ev);
    DrainKeeps(v, ev.taken, s, slips);
  }

  /** A keyframe joins, whatever came before it. */
  lemma AppendKey(all: seq<(string, Shown)>, f: Frame, slips: set<nat>)
    requires Ok(all, f.session, slips) && Last(all, f.session) < f.nr && f.nr !in slips && ClientKey(f.data)
    ensures var all' := all + Tag([f], false); Ok(all', f.session, slips) && Last(all', f.session) == f.nr
  {
    AppendOwn(all, f, slips);
    assert slips + {} == slips;
  }

  lemma OwnResumption(v: Viewer, ev: Event, s: string, slips: set<nat>, mark: Mark)
    requires Kept(v, s, slips, mark) && Takes(v, ev, s) && |ev.data| <= MAX_FRAME && ClientKey(ev.data)
    requires |v.g.frames| == CAPACITY
    ensures Kept(Step(v, ev), s, slips, Fine)
  {
    OverflowLeaves(v, ev);
    DrainKeeps(v, ev.taken, s, slips);
    AppendKey(v.shown + Tag(Split(v.g.frames, ev.taken, true), true), Frame(s, v.count[s], ev.data), slips);
    KeptWhole(Step(v, ev), s, slips);
  }

  /** The state after an emission, for the session that emitted. */
  lemma OwnEmission(v: Viewer, ev: Event, s: string, slips: set<nat>, mark: Mark)
    requires Kept(v, s, slips, mark) && Takes(v, ev, s) && |v.g.frames| <= CAPACITY
    ensures Kept(Step(v, ev), s, slips + if Slip(v, ev, s, mark) then {v.count[s]} else {},
                 if |ev.data| > MAX_FRAME then Oversized else Fine)
  {
    assert slips + {} == slips;
    if Discards(v, s, ev.data) {
      DiscardedKeepsKnown(v, ev);
    } else if |v.g.frames| < CAPACITY {
      OwnQueued(v, ev, s, slips, mark);
    } else if ClientKey(ev.data) {
      OwnResumption(v, ev, s, slips, mark);
    } else {
      OwnLoss(v, ev, s, slips, mark);
    }
  }

  /** A session that did not emit is kept if its order is, and if an open gate means that nothing was lost. */
  lemma KeptThrough(v: Viewer, v': Viewer, s: string, slips: set<nat>, mark: Mark)
    requires Kept(v, s, slips, mark) && s in v.count && s in v'.count && v'.count[s] == v.count[s]
    requires Ok(Known(v'), s, slips) && Last(Known(v'), s) <= Last(Known(v), s)
    requires s !in v'.g.waiting ==> s !in v.g.waiting && Last(Known(v'), s) == Last(Known(v), s)
    ensures Kept(v', s, slips, mark)
  {
  }

  lemma OtherLoss(v: Viewer, ev: Event, s: string, slips: set<nat>, mark: Mark)
    requires Kept(v, s, slips, mark) && s in v.count && ev.Emit? && Takes(v, ev, ev.session) && ev.session != s
    requires !Discards(v, ev.session, ev.data) && |v.g.frames| == CAPACITY && !ClientKey(ev.data)
    ensures Kept(Step(v, ev), s, slips, mark)
  {
    OverflowLeaves(v, ev);
    DrainKeeps(v, ev.taken, s, slips);
    KeptThrough(v, Step(v, ev), s, slips, mark);
  }

  lemma OtherResumption(v: Viewer, ev: Event, s: string, slips: set<nat>, mark: Mark)
    requires Kept(v, s, slips, mark) && s in v.count && ev.Emit? && Takes(v, ev, ev.session) && ev.session != s
    requires !Discards(v, ev.session, ev.data) && |v.g.frames| == CAPACITY && ClientKey(ev.data)
    ensures Kept(Step(v, ev), s, slips, mark)
  {
    OverflowLeaves(v, ev);
    DrainKeeps(v, ev.taken, s, slips);
    var after := v.shown + Tag(Split(v.g.frames, ev.taken, true), true);
    AppendOther(after, Frame(ev.session, v.count[ev.session], ev.data), s, slips);
    KeptThrough(v, Step(v, ev), s, slips, mark);
  }

  /** And for any other session that exists. */
  lemma OtherEmission(v: Viewer, ev: Event, s: string, slips: set<nat>, mark: Mark)
    requires Kept(v, s, slips, mark) && s in v.count && ev.Emit? && Takes(v, ev, ev.session) && ev.session != s
    requires |v.g.frames| <= CAPACITY
    ensures Kept(Step(v, ev), s, slips, mark)
  {
    if Discards(v, ev.session, ev.data) {
      DiscardedKeepsKnown(v, ev);
    } else if |v.g.frames| < CAPACITY {
      QueuedGrowsKnown(v, ev);
      AppendOther(Known(v), Frame(ev.session, v.count[ev.session], ev.data), s, slips);
    } else if ClientKey(ev.data) {
      OtherResumption(v, ev, s, slips, mark);
    } else {
      OtherLoss(v, ev, s, slips, mark);
    }
  }

  lemma {:induction false} SplitMembers(q: seq<Frame>, taken: seq<bool>, won: bool)
    requires |q| == |taken|
    ensures forall g | g in Split(q, taken, won) :: g in q
  {
    if q == [] {
    } else {
      SplitMembers(q[1..], taken[1..], won);
    }
  }

  lemma TagSessions(q: seq<Frame>, raced: bool, s: string)
    ensures (forall x | x in Tag(q, raced) :: x.0 != s) <==> forall f | f in q :: f.session != s
  {
    var t := Tag(q, raced);
    assert forall i | 0 <= i < |q| :: t[i] in t && q[i] in q && t[i].0 == q[i].session;
  }

  /** A session that was never opened shows nothing. */
  lemma StrangerEmission(v: Viewer, ev: Event, s: string)
    requires ev.Emit? && Takes(v, ev, ev.session) && |v.g.frames| <= CAPACITY
    requires s !in v.count && forall x | x in Known(v) :: x.0 != s
    ensures forall x | x in Known(Step(v, ev)) :: x.0 != s
  {
    var f := Frame(ev.session, v.count[ev.session], ev.data);
    var q, won := v.g.frames, Split(v.g.frames, ev.taken, true);
    assert forall x | x in v.shown || x in Tag(q, false) :: x in Known(v);
    TagSessions([f], false, s);
    if Discards(v, ev.session, ev.data) {
      DiscardedKeepsKnown(v, ev);
    } else if |q| < CAPACITY {
      QueuedGrowsKnown(v, ev);
    } else {
      OverflowLeaves(v, ev);
      TagSessions(q, false, s);
      SplitMembers(q, ev.taken, true);
      TagSessions(won, true, s);
    }
  }

  lemma DeliverKeepsKnown(v: Viewer)
    ensures Known(Step(v, Deliver)) == Known(v)
  {
    if v.g.frames != [] { TagHead(v.shown, v.g.frames, false); }
  }

  lemma EventKeeps(v: Viewer, ev: Event, s: string, slips: set<nat>, mark: Mark)
    requires Kept(v, s, slips, mark) && !Takes(v, ev, s) && |v.g.frames| <= CAPACITY
    ensures var shut := ev == Close(s) && s in v.count && s !in v.closed && s in v.g.waiting && !Whole(v, s);
      Kept(Step(v, ev), s, slips, if shut then Shut else mark)
  {
    match ev
    case Emit(session, data, now, taken) =>
      if Takes(v, ev, session) {
        if s in v.count { OtherEmission(v, ev, s, slips, mark); } else { StrangerEmission(v, ev, s); }
      }
    case Deliver => DeliverKeepsKnown(v);
    case Open(session) => if session == s && s !in v.count { LastNone(Known(v), s, slips); }
    case Close(_) =>
  }

  lemma {:induction false} QueueFits(events: seq<Event>)
    ensures |Run(START, events).g.frames| <= CAPACITY
  {
    if events == [] {
    } else {
      QueueFits(events[..|events| - 1]);
    }
  }

  lemma {:induction false} RunKeepsInv(events: seq<Event>, s: string)
    ensures Inv(events, s)
  {
    if events == [] {
    } else {
      var k := |events| - 1;
      var v, ev, slips, mark := Run(START, events[..k]), events[k], Slips(events[..k], s), MarkOf(events[..k], s);
      RunKeepsInv(events[..k], s);
      QueueFits(events[..k]);
      if Takes(v, ev, s) {
        OwnEmission(v, ev, s, slips, mark);
      } else {
        assert Slips(events, s) == slips + {} == slips;
        EventKeeps(v, ev, s, slips, mark);
      }
    }
  }

  // ---------------------------------------------------------------- what a session shows

  /**
   The gate of a session is open although its last frame was not passed on exactly if that frame was over the
   limit or the session was closed after it was lost.
   */
  lemma OpenGateExactly(events: seq<Event>, s: string)
    requires s in Run(START, events).count && s !in Run(START, events).g.waiting
    ensures !Whole(Run(START, events), s) <==> MarkOf(events, s) != Fine
  {
    RunKeepsInv(events, s);
  }

  /**
   Over every run of any number of sessions on the one queue, races included: what a session shows comes in
   order and is made of runs that start at a keyframe and miss nothing, exactly if it shows no slip: no delta
   that came to an open gate right after a frame over the limit, or after a close that forgot the gate.
   */
  lemma ContiguousExactly(events: seq<Event>, s: string)
    ensures var shown := Of(Run(START, events).shown, s);
      Contiguous(shown) <==> forall x | x in shown :: x.raced || x.nr !in Slips(events, s)
  {
    var v, slips := Run(START, events), Slips(events, s);
    RunKeepsInv(events, s);
    if s in v.count {
      OkPrefix(v.shown, Tag(v.g.frames, false), s, slips);
    } else {
      assert forall x | x in v.shown :: x in Known(v);
      LastNone(v.shown, s, slips);
    }
    OkContiguity(v.shown, s, slips);
  }

  /** A session that is not closed and emits no frame over the limit. */
  ghost predicate Unharmed(events: seq<Event>, s: string) {
    forall ev | ev in events :: ev != Close(s) && (ev.Emit? && ev.session == s ==> |ev.data| <= MAX_FRAME)
  }

  lemma {:induction false} UnharmedHasNoSlips(events: seq<Event>, s: string)
    requires Unharmed(events, s)
    ensures MarkOf(events, s) == Fine && Slips(events, s) == {}
  {
    if events == [] {
    } else {
      var k := |events| - 1;
      assert events[k] in events && forall ev | ev in events[..k] :: ev in events;
      UnharmedHasNoSlips(events[..k], s);
    }
  }

  /**
   So an open session whose frames keep the limit shows nothing but such runs, even when another session's
   overflow drained the queue.
   */
  lemma SessionsStayContiguous(events: seq<Event>, s: string)
    requires Unharmed(events, s)
    ensures Contiguous(Of(Run(START, events).shown, s))
  {
    UnharmedHasNoSlips(events, s);
    ContiguousExactly(events, s);
  }

  // ---------------------------------------------------------------- where a frame goes

  /** A queued frame that the drain gets. */
  ghost predicate LosesOne(v: Viewer, ev: Event, s: string)
    requires ev.Emit? && |ev.taken| == |v.g.frames|
  {
    exists i :: 0 <= i < |v.g.frames| && v.g.frames[i].session == s && !ev.taken[i]
  }

  lemma {:induction false} SplitSessions(q: seq<Frame>, taken: seq<bool>, s: string)
    requires |q| == |taken|
    ensures s in Sessions(Split(q, taken, false))
       <==> exists i :: 0 <= i < |q| && q[i].session == s && !taken[i]
  {
    if q == [] {
    } else {
      SplitHead(q, taken);
      SplitSessions(q[1..], taken[1..], s);
      if i :| 0 <= i < |q| - 1 && q[1..][i].session == s && !taken[1..][i] {
        assert q[i + 1].session == s && !taken[i + 1];
      }
      if i :| 0 <= i < |q| && q[i].session == s && !taken[i] {
        if i > 0 { assert q[1..][i - 1].session == s && !taken[1..][i - 1]; }
      }
    }
  }

  /** The gate is shut for a delta, or the queue is full: the emission is refused or drains the queue. */
  ghost predicate Refused(v: Viewer, ev: Event)
    requires ev.Emit?
  {
    |ev.data| <= MAX_FRAME && ev.session in v.g.waiting && !ClientKey(ev.data)
  }

  ghost predicate Drains(v: Viewer, ev: Event)
    requires ev.Emit?
  {
    |ev.data| <= MAX_FRAME && !Refused(v, ev) && |v.g.frames| == CAPACITY
  }

  /**
   A frame is queued exactly if it keeps the limit and is a keyframe, or finds its gate open and the queue not full;
   it is then the newest, its gate is open, and nothing is lost unless the queue was full.
   */
  lemma QueuedExactly(v: Viewer, ev: Event)
    requires ev.Emit? && Takes(v, ev, ev.session) && |v.g.frames| <= CAPACITY
    requires forall f | f in v.g.frames :: f != Frame(ev.session, v.count[ev.session], ev.data)
    ensures var v', f := Step(v, ev), Frame(ev.session, v.count[ev.session], ev.data);
      var queued := |ev.data| <= MAX_FRAME
                    && (ClientKey(ev.data) || (ev.session !in v.g.waiting && |v.g.frames| < CAPACITY));
      && (f in v'.g.frames <==> queued)
      && (queued ==> ev.session !in v'.g.waiting
                     && v'.g.frames == (if |v.g.frames| < CAPACITY then v.g.frames else []) + [f])
      && (!queued && !Drains(v, ev) ==> v'.g.frames == v.g.frames && v'.g.waiting == v.g.waiting)
  {
    var v', f := Step(v, ev), Frame(ev.session, v.count[ev.session], ev.data);
    assert [] + [f] == [f];
  }

  /** A gate shuts exactly when its session loses a queued frame, or the delta that found the queue full. */
  lemma ShutExactly(v: Viewer, ev: Event, s: string)
    requires ev.Emit? && Takes(v, ev, ev.session) && s !in v.g.waiting
    ensures s in Step(v, ev).g.waiting
       <==> Drains(v, ev) && ((LosesOne(v, ev, s) && !(s == ev.session && ClientKey(ev.data)))
                              || (s == ev.session && !ClientKey(ev.data)))
  {
    SplitSessions(v.g.frames, ev.taken, s);
  }

  // ---------------------------------------------------------------- requests for a keyframe

  /** The sessions that an event asks for a keyframe. */
  ghost function RequestsOf(v: Viewer, ev: Event): set<string> {
    if ev.Emit? && Takes(v, ev, ev.session)
    then Requests(v.g, Frame(ev.session, v.count[ev.session], ev.data), ev.now, ev.taken)
    else {}
  }

  /** Whoever a refused or draining emission leaves without a frame. */
  ghost predicate Concerned(v: Viewer, ev: Event, s: string)
    requires ev.Emit? && |ev.taken| == |v.g.frames|
  {
    (Refused(v, ev) && s == ev.session) || (Drains(v, ev) && (s == ev.session || LosesOne(v, ev, s)))
  }

  /** A request is recorded with its time, only concerned sessions are asked, and nobody else's time changes. */
  lemma RequestsAreRecorded(v: Viewer, ev: Event, s: string)
    requires ev.Emit? && Takes(v, ev, ev.session)
    ensures var r, r' := v.g.requested, Step(v, ev).g.requested;
      && (s in RequestsOf(v, ev) ==> Concerned(v, ev, s) && s in r' && r'[s] == ev.now)
      && (s !in RequestsOf(v, ev) ==> (s in r' <==> s in r) && (s in r ==> r'[s] == r[s]))
  {
    SplitSessions(v.g.frames, ev.taken, s);
  }

  /** After a refusal or a loss every concerned session has a request that is at most two seconds old. */
  lemma RequestsAreFresh(v: Viewer, ev: Event, s: string)
    requires ev.Emit? && Takes(v, ev, ev.session) && Concerned(v, ev, s)
    ensures s in Step(v, ev).g.requested && ev.now - Step(v, ev).g.requested[s] <= KEY_INTERVAL
  {
    SplitSessions(v.g.frames, ev.taken, s);
  }

  /** Emissions come in the order of their times. */
  ghost predicate Clocked(events: seq<Event>) {
    forall i, j | 0 <= i < j < |events| && events[i].Emit? && events[j].Emit? :: events[i].now <= events[j].now
  }

  ghost predicate AskedAt(events: seq<Event>, i: nat, s: string) {
    i < |events| && s in RequestsOf(Run(START, events[..i]), events[i])
  }

  lemma AskedNow(events: seq<Event>, i: nat, s: string)
    requires AskedAt(events, i, s)
    ensures events[i].Emit? && s in Run(START, events[..i + 1]).g.requested
    ensures Run(START, events[..i + 1]).g.requested[s] == events[i].now
  {
    assert events[..i + 1][..i] == events[..i];
    RequestsAreRecorded(Run(START, events[..i]), events[i], s);
  }

  lemma StepKeepsRequest(v: Viewer, ev: Event, s: string, t: int)
    requires s in v.g.requested && t <= v.g.requested[s] && ev != Close(s) && (ev.Emit? ==> t <= ev.now)
    ensures s in Step(v, ev).g.requested && t <= Step(v, ev).g.requested[s]
  {
    match ev
    case Emit(session, _, _, _) => if Takes(v, ev, session) { RequestsAreRecorded(v, ev, s); }
    case _ =>
  }

  lemma LastStep(events: seq<Event>, k: nat)
    requires 0 < k <= |events|
    ensures Run(START, events[..k]) == Step(Run(START, events[..k - 1]), events[k - 1])
  {
    assert events[..k][..k - 1] == events[..k - 1];
  }

  ghost predicate RequestedAfter(v: Viewer, s: string, t: int) {
    s in v.g.requested && t <= v.g.requested[s]
  }

  lemma OneStepKeepsRequest(events: seq<Event>, k: nat, s: string, t: int)
    requires 0 < k <= |events| && RequestedAfter(Run(START, events[..k - 1]), s, t)
    requires events[k - 1] != Close(s) && (events[k - 1].Emit? ==> t <= events[k - 1].now)
    ensures RequestedAfter(Run(START, events[..k]), s, t)
  {
    LastStep(events, k);
    StepKeepsRequest(Run(START, events[..k - 1]), events[k - 1], s, t);
  }

  /** While the session is not closed, the time of its last request stays or grows. */
  lemma {:induction false} RequestedSince(events: seq<Event>, i: nat, k: nat, s: string, t: int)
    requires Clocked(events) && i < k <= |events| && events[i].Emit? && events[i].now == t
    requires RequestedAfter(Run(START, events[..i + 1]), s, t)
    requires forall j | i < j < k :: events[j] != Close(s)
    ensures RequestedAfter(Run(START, events[..k]), s, t)
    decreases k
  {
    if k == i + 1 {
    } else {
      RequestedSince(events, i, k - 1, s, t);
      OneStepKeepsRequest(events, k, s, t);
    }
  }

  /** Over every run: two requests of a session that is not closed between them are more than two seconds apart. */
  lemma RequestsAreSpaced(events: seq<Event>, i: nat, j: nat, s: string)
    requires Clocked(events) && i < j && AskedAt(events, i, s) && AskedAt(events, j, s)
    requires forall k | i < k < j :: events[k] != Close(s)
    ensures events[i].Emit? && events[j].Emit? && events[j].now - events[i].now > KEY_INTERVAL
  {
    AskedNow(events, i, s);
    RequestedSince(events, i, j, s, events[i].now);
    AskedNow(events, j, s);
  }

  /** When a drain loses anything, at most two frames were snatched from it. */
  lemma {:induction false} FewRaced(g: Gate, f: Frame, taken: seq<bool>)
    requires |taken| == |g.frames| <= CAPACITY
    ensures Split(g.frames, taken, false) != [] ==> |Raced(g, f, taken)| <= 2
  {
    SplitLength(g.frames, taken);
  }

  lemma {:induction false} SplitLength(q: seq<Frame>, taken: seq<bool>)
    requires |q| == |taken|
    ensures |Split(q, taken, true)| + |Split(q, taken, false)| == |q|
  {
    if q == [] {
    } else {
      SplitLength(q[1..], taken[1..]);
    }
  }

  const IDR: Bytes := [0, 0, 1, 5, 0]
  const DELTA: Bytes := [0, 0, 1, 1, 0]

  lemma SampleKeys()
    ensures ClientKey(IDR) && HostKey(IDR) && !ClientKey(DELTA) && !HostKey(DELTA)
  {
    assert UnitAt(IDR, 3) && UnitType(IDR, 3) == 5;
  }

  /** Three emissions of one session, each shown at once. */
  ghost function ShownAtOnce(s: string, a: Bytes, b: Bytes, c: Bytes, now: int): Viewer {
    var one := Step(Step(Step(START, Open(s)), Emit(s, a, now, [])), Deliver);
    var two := Step(one, Emit(s, b, now, []));
    Step(Step(two, Emit(s, c, now, [])), Deliver)
  }

  /**
   A frame over the limit is discarded and its session told to close, but the gate stays open: a delta that is
   read before the close is passed on although its predecessor was not.
   */
  lemma OversizedFrameLeavesGateOpen(s: string, big: Bytes, now: int)
    requires |big| > MAX_FRAME
    ensures ShownAtOnce(s, IDR, big, DELTA, now).shown == [(s, Shown(0, true, false)), (s, Shown(2, false, false))]
  {
    SampleKeys();
    var a := Step(Step(START, Open(s)), Emit(s, IDR, now, []));
    assert a.g.frames == [Frame(s, 0, IDR)] && a.shown == [];
    var b := Step(a, Deliver);
    assert b.shown == [(s, Shown(0, true, false))] && b.g.frames == [];
    var c := Step(Step(b, Emit(s, big, now, [])), Emit(s, DELTA, now, []));
    assert c.g.frames == [Frame(s, 2, DELTA)] && c.shown == b.shown;
  }

  /** A close forgets the gate: a delta that is read after it is passed on after nothing at all. */
  lemma ClosedSessionForgetsGate(s: string, now: int)
    ensures Step(Step(Step(Step(START, Open(s)), Close(s)), Emit(s, DELTA, now, [])), Deliver).shown
         == [(s, Shown(0, false, false))]
  {
    SampleKeys();
    var a := Step(Step(START, Open(s)), Close(s));
    var b := Step(a, Emit(s, DELTA, now, []));
    assert b.g.frames == [Frame(s, 0, DELTA)] && b.shown == [];
  }
}
