/** Counting moments in an interval. */
module Times {

  /** How many of the times are at or after `a`. */
  function From(times: seq<int>, a: int): nat {
    if times == [] then 0
    else From(times[..|times| - 1], a) + if times[|times| - 1] >= a then 1 else 0
  }

  /** How many are at or after `a` and before `b`. */
  function Between(times: seq<int>, a: int, b: int): nat {
    if times == [] then 0
    else Between(times[..|times| - 1], a, b) + if a <= times[|times| - 1] < b then 1 else 0
  }

  lemma {:induction false} Bounds(times: seq<int>, a: int, b: int, last: int)
    requires forall t | t in times :: t <= last
    ensures Between(times, a, b) <= From(times, a) && (a > last ==> From(times, a) == 0)
  {
    if times == [] {
    } else {
      var k := |times| - 1;
      assert times[k] in times;
      assert forall t | t in times[..k] :: t in times;
      Bounds(times[..k], a, b, last);
    }
  }

  lemma Appended(times: seq<int>, t: int, a: int, b: int)
    ensures From(times + [t], a) == From(times, a) + if t >= a then 1 else 0
    ensures Between(times + [t], a, b) == Between(times, a, b) + if a <= t < b then 1 else 0
  {
    assert (times + [t])[..|times|] == times;
  }
}
