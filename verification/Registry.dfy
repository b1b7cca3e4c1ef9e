/**
 The persistent registry of device numbers (server/registry.go): one transaction looks a public key up or
 gives it a fresh ten-digit id and records the pair in two buckets.  Random draws, failures of a draw or of
 a write, and a failing commit are inputs.
 */
module Registry {
  import opened Prelude

  const TRIES := 100
  const FIRST_ID := 1_000_000_000
  const ID_COUNT := 9_000_000_000

  type Draw = n: nat | n < ID_COUNT

  // ---------------------------------------------------------------- keys and ids as text

  function HexDigit(n: nat): (c: char)
    requires n < 16
  {
    if n < 10 then '0' + n as char else 'a' + (n - 10) as char
  }

  function Hex(bytes: Bytes): string {
    if bytes == [] then [] else [HexDigit(bytes[0] / 16), HexDigit(bytes[0] % 16)] + Hex(bytes[1..])
  }

  /** Two public keys with the same text are the same key. */
  lemma {:induction false} HexInjective(a: Bytes, b: Bytes)
    requires Hex(a) == Hex(b)
    ensures a == b
  {
    if a != [] && b != [] {
      assert Hex(a)[0] == HexDigit(a[0] / 16) && Hex(a)[1] == HexDigit(a[0] % 16);
      assert Hex(b)[0] == HexDigit(b[0] / 16) && Hex(b)[1] == HexDigit(b[0] % 16);
      assert Hex(a)[2..] == Hex(a[1..]) && Hex(b)[2..] == Hex(b[1..]);
      HexInjective(a[1..], b[1..]);
      assert a == [a[0]] + a[1..] && b == [b[0]] + b[1..];
    }
  }

  function Power10(k: nat): nat {
    if k == 0 then 1 else 10 * Power10(k - 1)
  }

  lemma {:induction false} DigitsLength(n: nat, k: nat)
    requires Power10(k) <= n < Power10(k + 1)
    ensures |Digits(n)| == k + 1
    ensures forall i | 0 <= i <= k :: '0' <= Digits(n)[i] <= '9'
    ensures Digits(n)[0] != '0'
  {
    if k > 0 {
      assert Power10(k + 1) == 10 * Power10(k) && Power10(k) == 10 * Power10(k - 1);
      DigitsLength(n / 10, k - 1);
    } else {
      assert Power10(0) == 1 && Power10(1) == 10;
    }
  }

  /** Ten decimal digits, the first of them not zero. */
  predicate TenDigits(id: string) {
    |id| == 10 && (forall i | 0 <= i < 10 :: '0' <= id[i] <= '9') && id[0] != '0'
  }

  function IdOf(n: Draw): string {
    Digits(n + FIRST_ID)
  }

  /** Every draw prints as ten digits, and two draws print alike only if they are equal. */
  lemma IdsAreTenDigits(n: Draw, m: Draw)
    ensures TenDigits(IdOf(n))
    ensures IdOf(n) == IdOf(m) <==> n == m
  {
    assert Power10(3) == 1000;
    assert Power10(6) == 1_000_000;
    assert Power10(9) == 1_000_000_000 && Power10(10) == 10_000_000_000;
    DigitsLength(n + FIRST_ID, 9);
    DigitsReadBack(n + FIRST_ID);
    DigitsReadBack(m + FIRST_ID);
  }

  // ---------------------------------------------------------------- one call

  datatype Buckets = Buckets(keys: map<string, string>, ids: map<string, string>)

  datatype Answer = Id(id: string) | InvalidKey | DrawFailed | WriteFailed | Exhausted

  /** What the outside world does during one call; None is a failing random source. */
  datatype Luck = Luck(draws: seq<Option<Draw>>, idWritten: bool, keyWritten: bool, committed: bool)

  datatype Call = Call(public: Bytes, luck: Luck)

  datatype Pick = Fresh(id: string) | NoDraw | AllTaken

  function PickId(ids: map<string, string>, draws: seq<Option<Draw>>): Pick {
    if draws == [] then AllTaken
    else if draws[0].None? then NoDraw
    else if IdOf(draws[0].value) in ids then PickId(ids, draws[1..])
    else Fresh(IdOf(draws[0].value))
  }

  /** The answer, and the buckets after the commit or the roll-back. */
  function Identified(b: Buckets, c: Call): (Buckets, Answer) {
    var key := Hex(c.public);
    if |c.public| != 32 then (b, InvalidKey)
    else if key in b.keys then (b, if c.luck.committed then Id(b.keys[key]) else WriteFailed)
    else match PickId(b.ids, c.luck.draws)
      case AllTaken => (b, Exhausted)
      case NoDraw => (b, DrawFailed)
      case Fresh(id) =>
        if c.luck.idWritten && c.luck.keyWritten && c.luck.committed
        then (Buckets(b.keys[key := id], b.ids[id := key]), Id(id))
        else (b, WriteFailed)
  }

  /** The registry object.  A transaction works on copies, which the commit installs. */
  class IdRegistry {
    var keys: map<string, string>
    var ids: map<string, string>

    ghost function View(): Buckets reads this {
      Buckets(keys, ids)
    }

    constructor ()
      ensures View() == Buckets(map[], map[])
    {
      keys, ids := map[], map[];
    }

    method Identify(public: Bytes, luck: Luck) returns (answer: Answer)
      requires |luck.draws| == TRIES
      modifies this
      ensures (View(), answer) == Identified(old(View()), Call(public, luck))
    {
      if |public| != 32 { return InvalidKey; }
      var key := Hex(public);
      if key in keys {
        return if luck.committed then Id(keys[key]) else WriteFailed;
      }
      var tries := 0;
      while tries < TRIES
        invariant 0 <= tries <= TRIES
        invariant View() == old(View())
        invariant PickId(ids, luck.draws) == PickId(ids, luck.draws[tries..])
      {
        var draw := luck.draws[tries];
        assert luck.draws[tries..][1..] == luck.draws[tries + 1..];
        if draw.None? { return DrawFailed; }
        var id := IdOf(draw.value);
        if id !in ids {
          var newIds := ids[id := key];
          if !luck.idWritten { return WriteFailed; }
          var newKeys := keys[key := id];
          if !luck.keyWritten || !luck.committed { return WriteFailed; }
          keys, ids := newKeys, newIds;
          return Id(id);
        }
        tries := tries + 1;
      }
      return Exhausted;
    }
  }

  // ---------------------------------------------------------------- whole runs

  function Run(calls: seq<Call>): Buckets {
    if calls == [] then Buckets(map[], map[])
    else Identified(Run(calls[..|calls| - 1]), calls[|calls| - 1]).0
  }

  /** The answer to the i-th call of a run. */
  function AnswerAt(calls: seq<Call>, i: nat): Answer
    requires i < |calls|
  {
    Identified(Run(calls[..i]), calls[i]).1
  }

  /** The two buckets are inverse bijections between key texts and ten-digit ids. */
  ghost predicate Inverse(b: Buckets) {
    && (forall k | k in b.keys :: b.keys[k] in b.ids && b.ids[b.keys[k]] == k)
    && (forall id | id in b.ids :: b.ids[id] in b.keys && b.keys[b.ids[id]] == id)
    && (forall id | id in b.ids :: TenDigits(id))
  }

  lemma {:induction false} PickIsFresh(ids: map<string, string>, draws: seq<Option<Draw>>)
    ensures PickId(ids, draws).Fresh? ==>
      PickId(ids, draws).id !in ids && TenDigits(PickId(ids, draws).id)
  {
    if draws != [] && draws[0].Some? {
      IdsAreTenDigits(draws[0].value, draws[0].value);
      if IdOf(draws[0].value) in ids { PickIsFresh(ids, draws[1..]); }
    }
  }

  /** One call keeps the bijection, never changes an old pair, and changes nothing when it reports an error. */
  lemma CallKeepsInverse(b: Buckets, c: Call)
    requires Inverse(b)
    ensures var (b', answer) := Identified(b, c);
      && Inverse(b')
      && (forall k | k in b.keys :: k in b'.keys && b'.keys[k] == b.keys[k])
      && (!answer.Id? ==> b' == b)
      && (answer.Id? ==> Hex(c.public) in b'.keys && b'.keys[Hex(c.public)] == answer.id)
  {
    PickIsFresh(b.ids, c.luck.draws);
  }

  lemma {:induction false} RunKeepsInverse(calls: seq<Call>)
    ensures Inverse(Run(calls))
  {
    if calls == [] {
    } else {
      RunKeepsInverse(calls[..|calls| - 1]);
      CallKeepsInverse(Run(calls[..|calls| - 1]), calls[|calls| - 1]);
    }
  }

  /** An id that was answered stays in the bucket for the rest of the run. */
  lemma {:induction false} AnswersPersist(calls: seq<Call>, i: nat, n: nat)
    requires i < n <= |calls| && AnswerAt(calls, i).Id?
    ensures var key, b := Hex(calls[i].public), Run(calls[..n]);
      key in b.keys && b.keys[key] == AnswerAt(calls, i).id
    decreases n
  {
    var before := calls[..n - 1];
    assert calls[..n][..n - 1] == before;
    RunKeepsInverse(before);
    CallKeepsInverse(Run(before), calls[n - 1]);
    if i < n - 1 { AnswersPersist(calls, i, n - 1); }
  }

  /**
   Over every run, with any failed transactions and exhausted retries in it: the buckets are inverse to each
   other, every answered id has ten digits, and two answered calls got the same id exactly when they named the
   same public key.
   */
  lemma IdsArePermanent(calls: seq<Call>, i: nat, j: nat)
    requires i < |calls| && j < |calls| && AnswerAt(calls, i).Id? && AnswerAt(calls, j).Id?
    ensures Inverse(Run(calls))
    ensures TenDigits(AnswerAt(calls, i).id)
    ensures AnswerAt(calls, i).id == AnswerAt(calls, j).id <==> calls[i].public == calls[j].public
  {
    assert calls[..|calls|] == calls;
    RunKeepsInverse(calls);
    AnswersPersist(calls, i, |calls|);
    AnswersPersist(calls, j, |calls|);
    if AnswerAt(calls, i).id == AnswerAt(calls, j).id {
      HexInjective(calls[i].public, calls[j].public);
    }
  }

  /**
   A call for a well-formed key gets an id exactly when its commit works and either the key is registered
   already or one of its draws, before any failing draw, is an unused number whose pair is written.
   */
  lemma AnsweredExactly(calls: seq<Call>, i: nat)
    requires i < |calls|
    ensures var c := calls[i]; var b := Run(calls[..i]);
      AnswerAt(calls, i).Id? <==>
        && |c.public| == 32 && c.luck.committed
        && (Hex(c.public) in b.keys
            || (c.luck.idWritten && c.luck.keyWritten
                && exists t: nat :: FirstUnused(b.ids, c.luck.draws, t)))
  {
    PickFirst(Run(calls[..i]).ids, calls[i].luck.draws);
  }

  predicate FirstUnused(ids: map<string, string>, draws: seq<Option<Draw>>, t: nat) {
    && t < |draws| && draws[t].Some? && IdOf(draws[t].value) !in ids
    && forall u | 0 <= u < t :: draws[u].Some? && IdOf(draws[u].value) in ids
  }

  lemma {:induction false} PickFirst(ids: map<string, string>, draws: seq<Option<Draw>>)
    ensures PickId(ids, draws).Fresh? <==> exists t: nat :: FirstUnused(ids, draws, t)
    ensures forall t: nat | FirstUnused(ids, draws, t) :: PickId(ids, draws) == Fresh(IdOf(draws[t].value))
  {
    if draws != [] && draws[0].Some? {
      if IdOf(draws[0].value) in ids {
        PickFirst(ids, draws[1..]);
        forall t: nat | FirstUnused(ids, draws, t) ensures t > 0 && FirstUnused(ids, draws[1..], t - 1) {
        }
        if t: nat :| FirstUnused(ids, draws[1..], t) {
          assert FirstUnused(ids, draws, t + 1);
        }
      } else {
        assert FirstUnused(ids, draws, 0);
      }
    }
  }
}
