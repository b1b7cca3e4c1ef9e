/**
 The fixed-window rate limiter of the signaling server (server/hub.go), which forgets stale keys only
 once it remembers more than 8192 of them.  Times are milliseconds of a clock that never goes back.
 */
module Limiter {
  import opened Times

  const MINUTE := 60000
  const CROWDED := 8192

  datatype Window = Window(at: int, n: nat)

  type Windows = map<string, Window>

  /** The window a call at `now` falls into, the call included. */
  function Next(limits: Windows, key: string, now: int): Window {
    if key in limits && now - limits[key].at <= MINUTE then Window(limits[key].at, limits[key].n + 1)
    else Window(now, 1)
  }

  function Evicted(limits: Windows, now: int): Windows {
    map k | k in limits && now - limits[k].at <= MINUTE :: limits[k]
  }

  function Allowed(limits: Windows, key: string, max: int, now: int): (Windows, bool) {
    var w := Next(limits, key, now);
    var after := limits[key := w];
    (if |after| > CROWDED then Evicted(after, now) else after, w.n <= max)
  }

  class RateLimiter {
    var limits: Windows

    constructor ()
      ensures limits == map[]
    {
      limits := map[];
    }

    method Allow(key: string, max: int, now: int) returns (ok: bool)
      modifies this
      ensures (limits, ok) == Allowed(old(limits), key, max, now)
    {
      var w := if key in limits then limits[key] else Window(now, 0);
      if now - w.at > MINUTE {
        w := Window(now, 0);
      }
      w := w.(n := w.n + 1);
      limits := limits[key := w];
      if |limits| > CROWDED {
        ghost var crowd := limits;
        var left := limits.Keys;
        while left != {}
          invariant left <= crowd.Keys
          invariant limits == map k | k in crowd && (k in left || now - crowd[k].at <= MINUTE) :: crowd[k]
          decreases left
        {
          var k :| k in left;
          if now - limits[k].at > MINUTE {
            limits := limits - {k};
          }
          left := left - {k};
        }
        assert limits == Evicted(crowd, now);
      }
      return w.n <= max;
    }
  }

  // ---------------------------------------------------------------- eviction is invisible

  datatype Call = Call(key: string, max: int, now: int)

  ghost predicate Ordered(calls: seq<Call>) {
    forall i, j | 0 <= i < j < |calls| :: calls[i].now <= calls[j].now
  }

  function Answers(calls: seq<Call>): (Windows, seq<bool>) {
    if calls == [] then (map[], [])
    else
      var k := |calls| - 1;
      var (limits, answers) := Answers(calls[..k]);
      var (limits', ok) := Allowed(limits, calls[k].key, calls[k].max, calls[k].now);
      (limits', answers + [ok])
  }

  /** A limiter that never forgets. */
  function Patient(calls: seq<Call>): (Windows, seq<bool>) {
    if calls == [] then (map[], [])
    else
      var k := |calls| - 1;
      var (limits, answers) := Patient(calls[..k]);
      var w := Next(limits, calls[k].key, calls[k].now);
      (limits[calls[k].key := w], answers + [w.n <= calls[k].max])
  }

  /** What was forgotten is too old to matter. */
  ghost predicate Agrees(evicting: Windows, patient: Windows, now: int) {
    && (forall k | k in evicting :: k in patient && evicting[k] == patient[k])
    && (forall k | k in patient && k !in evicting :: now - patient[k].at > MINUTE)
  }

  lemma {:induction false} EvictionIsInvisible(calls: seq<Call>)
    requires Ordered(calls)
    ensures Answers(calls).1 == Patient(calls).1
    ensures calls != [] ==> Agrees(Answers(calls).0, Patient(calls).0, calls[|calls| - 1].now)
  {
    if calls == [] {
    } else {
      var k := |calls| - 1;
      EvictionIsInvisible(calls[..k]);
      var evicting, patient, c := Answers(calls[..k]).0, Patient(calls[..k]).0, calls[k];
      assert Agrees(evicting, patient, c.now);
      assert Next(evicting, c.key, c.now) == Next(patient, c.key, c.now);
    }
  }

  // ---------------------------------------------------------------- how much it lets through

  /** When calls with this key were admitted. */
  function Admitted(calls: seq<Call>, key: string): seq<int> {
    if calls == [] then []
    else
      var k := |calls| - 1;
      var ok := Allowed(Answers(calls[..k]).0, calls[k].key, calls[k].max, calls[k].now).1;
      Admitted(calls[..k], key) + if calls[k].key == key && ok then [calls[k].now] else []
  }

  /** How many fall in the closed interval of sixty seconds that starts at `a`. */
  function Within(times: seq<int>, a: int): nat {
    Between(times, a, a + MINUTE + 1)
  }

  function Least(x: int, y: int): int {
    if x < y then x else y
  }

  /** What a window knows about the admissions of its key, seen from one interval starting at `a`. */
  ghost predicate Knows(limits: Windows, key: string, max: int, now: int, times: seq<int>, a: int) {
    && (forall t | t in times :: t <= now)
    && Within(times, a) <= 2 * max - 1
    && if key !in limits then times == []
       else
         var w := limits[key];
         && 1 <= w.n && w.at <= now && (forall t | t in times :: t <= w.at + MINUTE)
         && (a > w.at ==> From(times, a) <= Least(w.n, max) - 1)
         && (a + MINUTE >= w.at ==> From(times, a) <= max - 1 + Least(w.n, max))
  }

  lemma {:induction false} OneCall(limits: Windows, key: string, max: int, now: int, later: int, times: seq<int>,
      a: int)
    requires max >= 1 && Knows(limits, key, max, now, times, a) && now <= later
    ensures var w := Next(limits, key, later);
      Knows(limits[key := w], key, max, later, if w.n <= max then times + [later] else times, a)
  {
    Appended(times, later, a, a + MINUTE + 1);
    Bounds(times, a, a + MINUTE + 1, now);
    var w := Next(limits, key, later);
    if key in limits && w.at == later && w.n == 1 {
      if a + MINUTE >= later && later - limits[key].at > MINUTE {
        assert a > limits[key].at;
      }
    }
  }

  lemma RunStep(calls: seq<Call>, c: Call, key: string, max: int, a: int)
    requires max >= 1 && Ordered(calls + [c]) && (c.key == key ==> c.max == max)
    requires calls != [] ==> Knows(Patient(calls).0, key, max, calls[|calls| - 1].now, Admitted(calls, key), a)
    ensures Knows(Patient(calls + [c]).0, key, max, c.now, Admitted(calls + [c], key), a)
  {
    var all, now := calls + [c], if calls == [] then c.now else calls[|calls| - 1].now;
    assert all[..|calls|] == calls && (calls != [] ==> all[|calls| - 1] == calls[|calls| - 1]);
    EvictionIsInvisible(calls);
    assert Admitted(calls, key) + [] == Admitted(calls, key);
    if c.key == key {
      assert Next(Answers(calls).0, key, c.now) == Next(Patient(calls).0, key, c.now);
      OneCall(Patient(calls).0, key, max, now, c.now, Admitted(calls, key), a);
    }
  }

  lemma {:induction false} RunKnows(calls: seq<Call>, key: string, max: int, a: int)
    requires Ordered(calls) && calls != [] && max >= 1
    requires forall c | c in calls && c.key == key :: c.max == max
    ensures Knows(Patient(calls).0, key, max, calls[|calls| - 1].now, Admitted(calls, key), a)
  {
    var k := |calls| - 1;
    var before, c := calls[..k], calls[k];
    assert c in calls && calls == before + [c];
    assert forall x | x in before :: x in calls;
    if before == [] {
    } else {
      RunKnows(before, key, max, a);
    }
    RunStep(before, c, key, max, a);
  }

  /**
   Over every run in which a key always comes with the same positive maximum: any sixty seconds, both ends
   included, see at most one less than twice the maximum admitted for that key.
   */
  lemma AdmissionBound(calls: seq<Call>, key: string, max: int, a: int)
    requires Ordered(calls) && max >= 1
    requires forall c | c in calls && c.key == key :: c.max == max
    ensures Within(Admitted(calls, key), a) <= 2 * max - 1
  {
    if calls != [] { RunKnows(calls, key, max, a); }
  }

  lemma OneMore(calls: seq<Call>, c: Call)
    ensures var (limits, ok) := Allowed(Answers(calls).0, c.key, c.max, c.now);
      && Answers(calls + [c]).0 == limits
      && Admitted(calls + [c], c.key) == Admitted(calls, c.key) + if ok then [c.now] else []
  {
    assert (calls + [c])[..|calls|] == calls;
  }

  /** `k` more calls at one moment. */
  function Burst(calls: seq<Call>, key: string, max: int, at: int, k: nat): seq<Call> {
    if k == 0 then calls else Burst(calls, key, max, at, k - 1) + [Call(key, max, at)]
  }

  /** The limiter knows of one key alone. */
  ghost predicate Only(limits: Windows, key: string, at: int, n: nat) {
    limits.Keys == {key} && limits[key] == Window(at, n)
  }

  /** One call inside a window that has room for it. */
  lemma AllowedInside(limits: Windows, key: string, max: int, start: int, n: nat, at: int)
    requires Only(limits, key, start, n) && start <= at <= start + MINUTE && n < max
    ensures Allowed(limits, key, max, at).1 && Only(Allowed(limits, key, max, at).0, key, start, n + 1)
  {
    var after := limits[key := Window(start, n + 1)];
    assert after.Keys == {key};
    assert |after| == |after.Keys| == 1;
  }

  lemma AllowedAfresh(limits: Windows, key: string, max: int, at: int)
    requires max >= 1 && limits.Keys <= {key} && (key in limits ==> at - limits[key].at > MINUTE)
    ensures Allowed(limits, key, max, at).1 && Only(Allowed(limits, key, max, at).0, key, at, 1)
  {
    var after := limits[key := Window(at, 1)];
    assert after.Keys == {key};
    assert |after| == |after.Keys| == 1;
  }

  /** After some calls: the window of the key, and how many calls were admitted in the interval from `a`. */
  ghost predicate Counted(calls: seq<Call>, key: string, start: int, n: nat, a: int, total: int) {
    Only(Answers(calls).0, key, start, n) && Within(Admitted(calls, key), a) == total
  }

  lemma BurstStep(calls: seq<Call>, key: string, max: int, start: int, n: nat, at: int, a: int, total: int)
    requires Counted(calls, key, start, n, a, total) && start <= at <= start + MINUTE && n < max
    requires a <= at <= a + MINUTE
    ensures Counted(calls + [Call(key, max, at)], key, start, n + 1, a, total + 1)
  {
    AllowedInside(Answers(calls).0, key, max, start, n, at);
    OneMore(calls, Call(key, max, at));
    Appended(Admitted(calls, key), at, a, a + MINUTE + 1);
  }

  lemma OpensWindow(calls: seq<Call>, key: string, max: int, at: int, a: int, total: int)
    requires max >= 1 && Within(Admitted(calls, key), a) == total
    requires var limits := Answers(calls).0; limits.Keys <= {key} && (key in limits ==> at - limits[key].at > MINUTE)
    ensures Counted(calls + [Call(key, max, at)], key, at, 1, a, total + if a <= at <= a + MINUTE then 1 else 0)
  {
    AllowedAfresh(Answers(calls).0, key, max, at);
    OneMore(calls, Call(key, max, at));
    Appended(Admitted(calls, key), at, a, a + MINUTE + 1);
  }

  /** `k` more calls inside a window that has room for them are all admitted. */
  lemma {:induction false} BurstAdmitted(calls: seq<Call>, key: string, max: int, start: int, n: nat, at: int, k: nat,
      a: int, total: int)
    requires Counted(calls, key, start, n, a, total) && start <= at <= start + MINUTE && n + k <= max
    requires a <= at <= a + MINUTE
    ensures Counted(Burst(calls, key, max, at, k), key, start, n + k, a, total + k)
  {
    if k == 0 {
    } else {
      BurstAdmitted(calls, key, max, start, n, at, k - 1, a, total);
      BurstStep(Burst(calls, key, max, at, k - 1), key, max, start, n + (k - 1), at, a, total + (k - 1));
    }
  }

  /** One call opens a window, the rest of its allowance comes at its end, and a new window follows at once. */
  function LateCalls(key: string, max: int): seq<Call>
    requires max >= 1
  {
    Burst(Burst([Call(key, max, 0)], key, max, 60000, max - 1) + [Call(key, max, 60001)], key, max, 60001, max - 1)
  }

  lemma {:induction false} BurstOrdered(calls: seq<Call>, key: string, max: int, at: int, k: nat)
    requires Ordered(calls) && forall i | 0 <= i < |calls| :: calls[i].now <= at
    ensures var all := Burst(calls, key, max, at, k); Ordered(all) && forall i | 0 <= i < |all| :: all[i].now <= at
  {
    if k == 0 {
    } else {
      BurstOrdered(calls, key, max, at, k - 1);
    }
  }

  lemma LateCallsAreOrdered(key: string, max: int)
    requires max >= 1
    ensures Ordered(LateCalls(key, max))
  {
    BurstOrdered([Call(key, max, 0)], key, max, 60000, max - 1);
    BurstOrdered(Burst([Call(key, max, 0)], key, max, 60000, max - 1) + [Call(key, max, 60001)], key, max, 60001,
        max - 1);
  }

  /** The first window of those calls: all of its allowance is admitted, most of it at its end. */
  lemma EarlyHalf(key: string, max: int)
    requires max >= 1
    ensures Counted(Burst([Call(key, max, 0)], key, max, 60000, max - 1), key, 0, max, 60000, max - 1)
  {
    OpensWindow([], key, max, 0, 60000, 0);
    assert [] + [Call(key, max, 0)] == [Call(key, max, 0)];
    BurstAdmitted([Call(key, max, 0)], key, max, 0, 1, 60000, max - 1, 60000, 0);
  }

  lemma LateHalf(early: seq<Call>, key: string, max: int)
    requires max >= 1 && Counted(early, key, 0, max, 60000, max - 1)
    ensures Counted(Burst(early + [Call(key, max, 60001)], key, max, 60001, max - 1), key, 60001, max, 60000,
        2 * max - 1)
  {
    OpensWindow(early, key, max, 60001, 60000, max - 1);
    BurstAdmitted(early + [Call(key, max, 60001)], key, max, 60001, 1, 60001, max - 1, 60000, max);
  }

  /** The bound is reached, for every maximum. */
  lemma AdmissionBoundIsReached(key: string, max: int)
    requires max >= 1
    ensures Ordered(LateCalls(key, max)) && Within(Admitted(LateCalls(key, max), key), 60000) == 2 * max - 1
  {
    LateCallsAreOrdered(key, max);
    EarlyHalf(key, max);
    LateHalf(Burst([Call(key, max, 0)], key, max, 60000, max - 1), key, max);
  }
}
