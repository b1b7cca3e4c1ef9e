/**
 The control channel (app/engine/engine.go): a message of at most 16000 bytes travels as one text
 message, a longer one as numbered-by-kind binary fragments closed by an end marker.  A send may be
 abandoned after any fragment, so the receiving side must tell a finished message from a leftover.
 */
module Fragments {
  import opened Prelude

  const FRAGMENT := 16000
  const LIMIT := 10485760

  datatype Wire = Text(text: Bytes) | Binary(data: Bytes)

  /** What the receiving end does with a wire message. */
  datatype Effect = Nothing | Message(body: Bytes) | Closed

  // ---------------------------------------------------------------- receiving

  function Checked(body: Bytes): Effect {
    if |body| > LIMIT then Closed else Message(body)
  }

  function Receive(fragments: Bytes, m: Wire): (Bytes, Effect) {
    match m
    case Text(text) => (fragments, Checked(text))
    case Binary(data) =>
      if data == [] then (fragments, Nothing)
      else if data[0] == 0 then (data[1..], Nothing)
      else if data[0] == 1 then
        if |fragments| + |data| - 1 > LIMIT then ([], Closed) else (fragments + data[1..], Nothing)
      else if data[0] == 2 then ([], Checked(fragments))
      else (fragments, Nothing)
  }

  class Reassembler {
    var fragments: Bytes

    constructor ()
      ensures fragments == []
    {
      fragments := [];
    }

    method OnMessage(m: Wire) returns (effect: Effect)
      modifies this
      ensures (fragments, effect) == Receive(old(fragments), m)
    {
      var body;
      match m {
        case Text(text) =>
          body := text;
        case Binary(data) =>
          if data == [] {
            return Nothing;
          }
          match data[0] {
            case 0 =>
              fragments := data[1..];
              return Nothing;
            case 1 =>
              if |fragments| + |data| - 1 > LIMIT {
                fragments := [];
                return Closed;
              }
              fragments := fragments + data[1..];
              return Nothing;
            case 2 =>
              body := fragments;
              fragments := [];
            case _ =>
              return Nothing;
          }
      }
      if |body| > LIMIT {
        return Closed;
      }
      return Message(body);
    }
  }

  // ---------------------------------------------------------------- sending

  /** The fragments from `offset` on, then the end marker. */
  function Fragmented(b: Bytes, offset: nat): seq<Wire>
    requires offset <= |b|
    decreases |b| - offset
  {
    if offset == |b| then [Binary([2])]
    else
      var end := if offset + FRAGMENT > |b| then |b| else offset + FRAGMENT;
      [Binary([if offset == 0 then 0 else 1] + b[offset..end])] + Fragmented(b, end)
  }

  lemma FragmentStep(b: Bytes, offset: nat)
    requires offset < |b|
    ensures var end := if offset + FRAGMENT > |b| then |b| else offset + FRAGMENT;
      Fragmented(b, offset) == [Binary([if offset == 0 then 0 else 1] + b[offset..end])] + Fragmented(b, end)
  {
  }

  /** Everything a send would put on the wire; empty when it refuses. */
  function Script(b: Bytes): seq<Wire> {
    if |b| <= FRAGMENT then [Text(b)]
    else if |b| > LIMIT then []
    else Fragmented(b, 0)
  }

  /**
   One send on a channel whose calls succeed `budget` times and then fail: what it put on the wire, and
   whether it reported success.  A congested or closing channel is a failing call.
   */
  method Send(b: Bytes, budget: nat) returns (wire: seq<Wire>, ok: bool)
    ensures |wire| <= budget && wire <= Script(b)
    ensures ok <==> |b| <= LIMIT && |Script(b)| <= budget
    ensures ok ==> wire == Script(b)
  {
    if |b| <= FRAGMENT {
      if budget == 0 {
        return [], false;
      }
      return [Text(b)], true;
    }
    if |b| > LIMIT {
      return [], false;
    }
    wire, ok := SendFragments(b, budget);
  }

  method SendFragments(b: Bytes, budget: nat) returns (wire: seq<Wire>, ok: bool)
    ensures |wire| <= budget && wire <= Fragmented(b, 0)
    ensures ok <==> |Fragmented(b, 0)| <= budget
    ensures ok ==> wire == Fragmented(b, 0)
  {
    wire := [];
    var offset := 0;
    while offset < |b|
      invariant 0 <= offset <= |b|
      invariant wire + Fragmented(b, offset) == Fragmented(b, 0)
      invariant |wire| <= budget
    {
      var end := offset + FRAGMENT;
      if end > |b| {
        end := |b|;
      }
      var kind: Byte := if offset == 0 then 0 else 1;
      FragmentStep(b, offset);
      if |wire| == budget {
        return wire, false;
      }
      var one := [Binary([kind] + b[offset..end])];
      assert wire + (one + Fragmented(b, end)) == wire + one + Fragmented(b, end);
      wire := wire + one;
      offset := end;
    }
    if |wire| == budget {
      return wire, false;
    }
    wire := wire + [Binary([2])];
    ok := true;
  }

  // ---------------------------------------------------------------- round trip

  datatype Attempt = Attempt(body: Bytes, sent: nat)

  /** A send of at most 10 MiB, completed or abandoned after some of its wire messages. */
  ghost predicate Legal(s: Attempt) {
    |s.body| <= LIMIT && s.sent <= |Script(s.body)|
  }

  ghost predicate Completed(s: Attempt) {
    Legal(s) && s.sent == |Script(s.body)|
  }

  function OnWire(sends: seq<Attempt>): seq<Wire>
    requires forall s | s in sends :: Legal(s)
  {
    if sends == [] then [] else assert Legal(sends[0]); Script(sends[0].body)[..sends[0].sent] + OnWire(sends[1..])
  }

  ghost function Bodies(sends: seq<Attempt>): seq<Effect> {
    if sends == [] then []
    else (if Completed(sends[0]) then [Message(sends[0].body)] else []) + Bodies(sends[1..])
  }

  /** The buffer afterwards, and everything that happened on the way. */
  function ReceiveAll(fragments: Bytes, wire: seq<Wire>): (Bytes, seq<Effect>)
    decreases |wire|
  {
    if wire == [] then (fragments, [])
    else
      var (f, effect) := Receive(fragments, wire[0]);
      var (g, effects) := ReceiveAll(f, wire[1..]);
      (g, (if effect == Nothing then [] else [effect]) + effects)
  }

  lemma {:induction false} ReceiveAppend(fragments: Bytes, a: seq<Wire>, b: seq<Wire>)
    ensures var (f, effects) := ReceiveAll(fragments, a); var (g, more) := ReceiveAll(f, b);
      ReceiveAll(fragments, a + b) == (g, effects + more)
    decreases |a|
  {
    if a == [] {
      assert a + b == b && [] + ReceiveAll(fragments, b).1 == ReceiveAll(fragments, b).1;
    } else {
      assert (a + b)[1..] == a[1..] + b;
      var (f, effect) := Receive(fragments, a[0]);
      ReceiveAppend(f, a[1..], b);
      var (g, effects) := ReceiveAll(f, a[1..]);
      var one := if effect == Nothing then [] else [effect];
      assert one + (effects + ReceiveAll(g, b).1) == one + effects + ReceiveAll(g, b).1;
    }
  }

  /** A fragmented send in progress: the buffer holds exactly what has been sent, until the marker hands it over. */
  lemma {:induction false} PartReceived(b: Bytes, offset: nat, k: nat, fragments: Bytes)
    requires offset <= |b| <= LIMIT && k <= |Fragmented(b, offset)| && |b| > 0
    requires offset > 0 ==> fragments == b[..offset]
    ensures ReceiveAll(fragments, Fragmented(b, offset)[..k]).1
         == if k == |Fragmented(b, offset)| then [Message(b)] else []
    decreases |b| - offset
  {
    var all := Fragmented(b, offset);
    if k == 0 {
    } else {
      assert all[..k] == [all[0]] + all[1..][..k - 1];
      assert all[..k][1..] == all[1..][..k - 1];
      if offset < |b| {
        var end := if offset + FRAGMENT > |b| then |b| else offset + FRAGMENT;
        assert all[1..] == Fragmented(b, end);
        assert b[..offset] + b[offset..end] == b[..end];
        assert all[0].data[1..] == b[offset..end];
        PartReceived(b, end, k - 1, b[..end]);
      } else {
        assert b[..offset] == b;
      }
    }
  }

  lemma OneSend(s: Attempt, fragments: Bytes)
    requires Legal(s)
    ensures ReceiveAll(fragments, Script(s.body)[..s.sent]).1 == if Completed(s) then [Message(s.body)] else []
  {
    if |s.body| > FRAGMENT {
      PartReceived(s.body, 0, s.sent, fragments);
    }
  }

  /**
   For any sequence of sends of up to 10 MiB, each completed or abandoned after any of its fragments, and
   whatever was left in the buffer before: the receiver delivers exactly the completed messages, in order
   and byte for byte, and never closes the channel over its size limit.
   */
  lemma {:induction false} CompletedSendsArrive(sends: seq<Attempt>, fragments: Bytes)
    requires forall s | s in sends :: Legal(s)
    ensures ReceiveAll(fragments, OnWire(sends)).1 == Bodies(sends)
  {
    if sends == [] {
    } else {
      assert Legal(sends[0]);
      var first := Script(sends[0].body)[..sends[0].sent];
      OneSend(sends[0], fragments);
      ReceiveAppend(fragments, first, OnWire(sends[1..]));
      CompletedSendsArrive(sends[1..], ReceiveAll(fragments, first).0);
    }
  }

  /** Whatever the other end puts on the wire: no delivered message is over the limit. */
  lemma {:induction false} NothingOverLimit(fragments: Bytes, wire: seq<Wire>)
    ensures forall e | e in ReceiveAll(fragments, wire).1 :: e == Closed || (e.Message? && |e.body| <= LIMIT)
    decreases |wire|
  {
    if wire == [] {
    } else {
      NothingOverLimit(Receive(fragments, wire[0]).0, wire[1..]);
    }
  }

  /** A text is delivered as it is, also among the fragments of another message, which it leaves alone. */
  lemma TextLeavesFragments(fragments: Bytes, text: Bytes, wire: seq<Wire>)
    requires |text| <= LIMIT
    ensures var (f, effects) := ReceiveAll(fragments, wire);
      ReceiveAll(fragments, [Text(text)] + wire) == (f, [Message(text)] + effects)
  {
    assert ([Text(text)] + wire)[1..] == wire;
  }
}
