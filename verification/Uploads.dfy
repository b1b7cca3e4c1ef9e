/**
 The commit of a received file (core/desktop/storage.go): a temporary file is moved to the first
 free name among `name`, `stem (1).ext`, `stem (2).ext`, ...  The move itself is atomic and refuses
 to overwrite, so a directory is a map from names to contents.
 */
module Uploads {
  import opened Prelude

  type Directory = map<string, Bytes>

  const MAX_CANDIDATES := 10000

  /** A single path element, as the receiver demands of a declared name. Device names are not modelled. */
  predicate LocalName(name: string) {
    && name != "" && name != ".."
    && forall c | c in name :: c != '/' && c != '\\' && c != ':'
  }

  /** The stricter test made just before the move; a NUL cannot be passed to the system call. */
  predicate CommitName(name: string) {
    && LocalName(name)
    && name[|name| - 1] != ' ' && name[|name| - 1] != '.'
    && '\0' !in name
  }

  /** Position of the last dot, or the length when there is none. */
  function DotAt(name: string): (i: nat)
    ensures i <= |name|
  {
    if name == "" then 0
    else if name[|name| - 1] == '.' then |name| - 1
    else
      var i := DotAt(name[..|name| - 1]);
      if i == |name| - 1 then |name| else i
  }

  function Candidate(name: string, i: nat): string {
    if i == 0 then name
    else name[..DotAt(name)] + " (" + Digits(i) + ")" + name[DotAt(name)..]
  }

  function FirstFree(dir: Directory, name: string, i: nat): (k: nat)
    requires i <= MAX_CANDIDATES
    ensures i <= k <= MAX_CANDIDATES
    ensures forall j | i <= j < k :: Candidate(name, j) in dir
    ensures k < MAX_CANDIDATES ==> Candidate(name, k) !in dir
    decreases MAX_CANDIDATES - i
  {
    if i == MAX_CANDIDATES || Candidate(name, i) !in dir then i else FirstFree(dir, name, i + 1)
  }

  /** The name a commit lands on; `refusal` is the attempt at which the system refuses for another reason. */
  function Destination(dir: Directory, name: string, refusal: Option<nat>): Option<string> {
    var k := FirstFree(dir, name, 0);
    if !CommitName(name) || k == MAX_CANDIDATES || (refusal.Some? && refusal.value <= k) then None
    else Some(Candidate(name, k))
  }

  lemma FirstFreeIs(dir: Directory, name: string, start: nat, i: nat)
    requires start <= i <= MAX_CANDIDATES && forall j | start <= j < i :: Candidate(name, j) in dir
    ensures FirstFree(dir, name, start) >= i
    ensures i < MAX_CANDIDATES && Candidate(name, i) !in dir ==> FirstFree(dir, name, start) == i
  {
    var k := FirstFree(dir, name, start);
    if k > i { assert Candidate(name, i) in dir; }
  }

  /** What the i-th attempt decides when all earlier names were taken. */
  lemma AttemptDecides(dir: Directory, name: string, refusal: Option<nat>, i: nat)
    requires CommitName(name) && i <= MAX_CANDIDATES && (refusal.Some? ==> i <= refusal.value)
    requires forall j | 0 <= j < i :: Candidate(name, j) in dir
    ensures i == MAX_CANDIDATES || refusal == Some(i) ==> Destination(dir, name, refusal) == None
    ensures i < MAX_CANDIDATES && refusal != Some(i) && Candidate(name, i) !in dir
        ==> Destination(dir, name, refusal) == Some(Candidate(name, i))
  {
    FirstFreeIs(dir, name, 0, i);
  }

  class Folder {
    var entries: Directory

    constructor ()
      ensures entries == map[]
    {
      entries := map[];
    }

    method CommitUpload(content: Bytes, name: string, refusal: Option<nat>) returns (path: Option<string>)
      modifies this
      ensures path == Destination(old(entries), name, refusal)
      ensures entries == if path.Some? then old(entries)[path.value := content] else old(entries)
    {
      if !CommitName(name) {
        return None;
      }
      var i := 0;
      while i < MAX_CANDIDATES
        invariant 0 <= i <= MAX_CANDIDATES
        invariant entries == old(entries)
        invariant forall j | 0 <= j < i :: Candidate(name, j) in entries
        invariant refusal.Some? ==> i <= refusal.value
      {
        AttemptDecides(entries, name, refusal, i);
        if refusal == Some(i) {
          return None;
        }
        var candidate := Candidate(name, i);
        if candidate !in entries {
          entries := entries[candidate := content];
          return Some(candidate);
        }
        i := i + 1;
      }
      AttemptDecides(entries, name, refusal, i);
      return None;
    }
  }

  lemma Middle(head: string, number: string, rest: string)
    ensures (head + number + rest)[|head|..|head| + |number|] == number
  {
  }

  /** Where a numbered name shows its number. */
  lemma NumberShown(name: string, i: nat)
    requires i > 0
    ensures var s, from := Candidate(name, i), DotAt(name) + 2;
      |s| == |name| + 3 + |Digits(i)| && s[from..from + |Digits(i)|] == Digits(i)
  {
    var d := DotAt(name);
    var head, rest := name[..d] + " (", ")" + name[d..];
    assert Candidate(name, i) == head + Digits(i) + rest;
    assert |head| == d + 2 && |rest| == 1 + |name| - d;
    Middle(head, Digits(i), rest);
  }

  /** The numbered names are pairwise different, so a collision always makes progress. */
  lemma CandidateInjective(name: string, i: nat, j: nat)
    requires Candidate(name, i) == Candidate(name, j)
    ensures i == j
  {
    if i > 0 { NumberShown(name, i); }
    if j > 0 { NumberShown(name, j); }
    if i > 0 && j > 0 {
      DigitsReadBack(i);
      DigitsReadBack(j);
    }
  }

  lemma {:induction false} TakenCandidates(dir: Directory, name: string, k: nat)
    requires forall j | 0 <= j < k :: Candidate(name, j) in dir
    ensures |dir| >= k
  {
    var taken := set j | 0 <= j < k :: Candidate(name, j);
    CandidateCount(name, k, taken);
    assert taken <= dir.Keys;
    SubsetSize(taken, dir.Keys);
  }

  lemma {:induction false} CandidateCount(name: string, k: nat, s: set<string>)
    requires s == set j | 0 <= j < k :: Candidate(name, j)
    ensures |s| == k
  {
    if k == 0 {
    } else {
      var smaller := set j | 0 <= j < k - 1 :: Candidate(name, j);
      CandidateCount(name, k - 1, smaller);
      if Candidate(name, k - 1) in smaller {
        var j :| 0 <= j < k - 1 && Candidate(name, j) == Candidate(name, k - 1);
        CandidateInjective(name, j, k - 1);
      }
      assert s == smaller + {Candidate(name, k - 1)};
    }
  }

  /** The commit never overwrites, takes the first free name, and only fails for a reason it states. */
  lemma CommitNeverOverwrites(dir: Directory, name: string, refusal: Option<nat>)
    ensures var d := Destination(dir, name, refusal);
      && (d.Some? ==>
            && d.value !in dir
            && exists k: nat :: k < MAX_CANDIDATES && d.value == Candidate(name, k)
                                && forall j | 0 <= j < k :: Candidate(name, j) in dir)
      && (CommitName(name) && refusal.None? && |dir| < MAX_CANDIDATES ==> d.Some?)
  {
    var k := FirstFree(dir, name, 0);
    TakenCandidates(dir, name, k);
    var d := Destination(dir, name, refusal);
    if d.Some? {
      assert k < MAX_CANDIDATES && d.value == Candidate(name, k);
    }
  }
}
