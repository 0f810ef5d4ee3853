/**
 * The text operations of `UmschString`, an array of canonical units: case
 * changes, searching with Python slice bounds, replacement and the prefix and
 * suffix tests. A text is a sequence of units; every operation returns a new
 * one and leaves its receiver alone.
 */
module UmschStrings {
  import opened Options
  import opened Alphabet

  /** One bound of `slice(start, end).indices(n)` for a step of 1: `None` takes
      the default, a negative bound counts from the end, and the result is
      clamped to 0..n. */
  function Bound(b: Option<int>, default: nat, n: nat): (r: nat)
    requires default <= n
    ensures r <= n
    ensures b.None? ==> r == default
    ensures b.Some? && 0 <= b.value ==> r == if b.value <= n then b.value else n
    ensures b.Some? && b.value < 0 ==> r == if -b.value <= n then n + b.value else 0
  {
    match b
    case None => default
    case Some(v) =>
      if v < 0 then (if v + n < 0 then 0 else v + n)
      else if v > n then n
      else v
  }

  /** `s[start:end]`: the units between the two bounds, or nothing when the
      start bound lies after the end bound. */
  function Sliced(s: seq<int>, start: Option<int>, end: Option<int>): (r: seq<int>)
    ensures var lo := Bound(start, 0, |s|); var hi := Bound(end, |s|, |s|);
      r == if lo <= hi then s[lo..hi] else []
  {
    var lo := Bound(start, 0, |s|);
    var hi := Bound(end, |s|, |s|);
    if lo <= hi then s[lo..hi] else []
  }

  // ----- case -----

  /** The text with every cased unit replaced by its capital form. */
  function Uppered(s: seq<int>): (r: seq<int>)
    ensures |r| == |s|
    ensures forall k :: 0 <= k < |s| ==> r[k] == UpperOf(s[k])
  {
    if s == [] then [] else Uppered(s[..|s| - 1]) + [UpperOf(s[|s| - 1])]
  }

  /** The text with every cased unit replaced by its small form. */
  function Lowered(s: seq<int>): (r: seq<int>)
    ensures |r| == |s|
    ensures forall k :: 0 <= k < |s| ==> r[k] == LowerOf(s[k])
  {
    if s == [] then [] else Lowered(s[..|s| - 1]) + [LowerOf(s[|s| - 1])]
  }

  /** `upper`: clears bit 0 of every cased unit. */
  method Upper(s: seq<int>) returns (r: seq<int>)
    ensures r == Uppered(s)
  {
    r := [];
    for k := 0 to |s|
      invariant r == Uppered(s[..k])
    {
      var c := s[k];
      if Cased(c) {
        r := r + [c - c % 2];
      } else {
        r := r + [c];
      }
      assert s[..k + 1][..k] == s[..k];
    }
    assert s[..|s|] == s;
  }

  /** `lower`: sets bit 0 of every cased unit (`char + (~char & 1)`). */
  method Lower(s: seq<int>) returns (r: seq<int>)
    ensures r == Lowered(s)
  {
    r := [];
    for k := 0 to |s|
      invariant r == Lowered(s[..k])
    {
      var c := s[k];
      if Cased(c) {
        r := r + [c + (1 - c % 2)];
      } else {
        r := r + [c];
      }
      assert s[..k + 1][..k] == s[..k];
    }
    assert s[..|s|] == s;
  }

  /** Lowering twice is lowering once. */
  lemma LowerIdempotent(s: seq<int>)
    ensures Lowered(Lowered(s)) == Lowered(s)
  {
  }

  /** Raising twice is raising once. */
  lemma UpperIdempotent(s: seq<int>)
    ensures Uppered(Uppered(s)) == Uppered(s)
  {
  }

  /** Case changes only ever touch cased units, and a capital and its small
      form differ in bit 0 alone. */
  lemma CaseChangesStayInPlace(s: seq<int>)
    ensures forall k :: 0 <= k < |s| && !Cased(s[k]) ==> Lowered(s)[k] == s[k] && Uppered(s)[k] == s[k]
    ensures forall k :: 0 <= k < |s| && Cased(s[k]) ==>
      Lowered(s)[k] / 2 == s[k] / 2 && Lowered(s)[k] % 2 == 1 &&
      Uppered(s)[k] / 2 == s[k] / 2 && Uppered(s)[k] % 2 == 0
  {
  }

  // ----- searching -----

  /** `sub` occurs in `s` at position `p`. */
  predicate MatchAt(s: seq<int>, sub: seq<int>, p: int) {
    0 <= p && p + |sub| <= |s| && s[p..p + |sub|] == sub
  }

  /** Every position from `p` on at which `sub` occurs and ends by `hi`, in
      increasing order; overlapping occurrences all count. */
  function AllMatches(s: seq<int>, sub: seq<int>, p: nat, hi: nat): seq<nat>
    requires hi <= |s|
    decreases hi + 1 - p
  {
    if p + |sub| > hi then []
    else if s[p..p + |sub|] == sub then [p] + AllMatches(s, sub, p + 1, hi)
    else AllMatches(s, sub, p + 1, hi)
  }

  /** `AllMatches` holds exactly the occurrences in range, in increasing order. */
  lemma {:induction false} AllMatchesExact(s: seq<int>, sub: seq<int>, p: nat, hi: nat)
    requires hi <= |s|
    ensures forall k :: 0 <= k < |AllMatches(s, sub, p, hi)| ==>
      var q := AllMatches(s, sub, p, hi)[k]; p <= q && q + |sub| <= hi && MatchAt(s, sub, q)
    ensures forall q :: p <= q && q + |sub| <= hi && MatchAt(s, sub, q) ==> q in AllMatches(s, sub, p, hi)
    ensures forall j, k :: 0 <= j < k < |AllMatches(s, sub, p, hi)| ==>
      AllMatches(s, sub, p, hi)[j] < AllMatches(s, sub, p, hi)[k]
    decreases hi + 1 - p
  {
    if p + |sub| <= hi {
      AllMatchesExact(s, sub, p + 1, hi);
    }
  }

  lemma {:induction false} AllMatchesStart(s: seq<int>, sub: seq<int>, p: nat, hi: nat)
    requires hi <= |s|
    ensures AllMatches(s, sub, p, hi) == [] || p <= AllMatches(s, sub, p, hi)[0]
    decreases hi + 1 - p
  {
    if p + |sub| <= hi && s[p..p + |sub|] != sub {
      AllMatchesStart(s, sub, p + 1, hi);
    }
  }

  /** Positions before the first occurrence contribute nothing. */
  lemma {:induction false} AllMatchesSkip(s: seq<int>, sub: seq<int>, p: nat, q: nat, hi: nat)
    requires hi <= |s| && p <= q
    requires forall x :: p <= x < q ==> !MatchAt(s, sub, x)
    ensures q + |sub| <= hi + 1 ==> AllMatches(s, sub, p, hi) == AllMatches(s, sub, q, hi)
    decreases q - p
  {
    if p < q && q + |sub| <= hi + 1 {
      assert !MatchAt(s, sub, p);
      AllMatchesSkip(s, sub, p + 1, q, hi);
    }
  }

  /** The occurrences from `p` on are the first one followed by those after it. */
  lemma {:induction false} AllMatchesHead(s: seq<int>, sub: seq<int>, p: nat, hi: nat)
    requires hi <= |s| && AllMatches(s, sub, p, hi) != []
    ensures var all := AllMatches(s, sub, p, hi);
      all == [all[0]] + AllMatches(s, sub, all[0] + 1, hi)
    decreases hi + 1 - p
  {
    if s[p..p + |sub|] != sub {
      AllMatchesHead(s, sub, p + 1, hi);
    }
  }

  /** What `find` returns: the first occurrence in the slice, or -1. */
  function FindIn(s: seq<int>, sub: seq<int>, start: Option<int>, end: Option<int>): int {
    var all := AllMatches(s, sub, Bound(start, 0, |s|), Bound(end, |s|, |s|));
    if all == [] then -1 else all[0]
  }

  /** `find` answers -1 exactly when `sub` occurs nowhere in the slice, and
      otherwise the least position in the slice at which it occurs. */
  lemma FindLeast(s: seq<int>, sub: seq<int>, start: Option<int>, end: Option<int>)
    ensures var r := FindIn(s, sub, start, end);
      var lo := Bound(start, 0, |s|); var hi := Bound(end, |s|, |s|);
      && (r == -1 <==> forall q :: lo <= q && q + |sub| <= hi ==> !MatchAt(s, sub, q))
      && (r != -1 ==> lo <= r && r + |sub| <= hi && MatchAt(s, sub, r))
      && (forall q :: lo <= q < r ==> !MatchAt(s, sub, q))
  {
    AllMatchesExact(s, sub, Bound(start, 0, |s|), Bound(end, |s|, |s|));
  }

  /** `find`: tries every position from the normalised start while `sub` still
      fits before the normalised end. */
  method Find(s: seq<int>, sub: seq<int>, start: Option<int>, end: Option<int>) returns (r: int)
    ensures r == FindIn(s, sub, start, end)
  {
    var lo := Bound(start, 0, |s|);
    var hi := Bound(end, |s|, |s|);
    var pos := lo;
    while pos <= hi - |sub|
      invariant lo <= pos && (pos == lo || pos + |sub| <= hi + 1)
      invariant forall q :: lo <= q < pos ==> !MatchAt(s, sub, q)
      decreases hi - |sub| - pos
    {
      if s[pos..pos + |sub|] == sub {
        AllMatchesSkip(s, sub, lo, pos, hi);
        return pos;
      }
      pos := pos + 1;
    }
    AllMatchesSkip(s, sub, lo, pos, hi);
    assert AllMatches(s, sub, pos, hi) == [];
    return -1;
  }

  /** `index`: `find`, with the ValueError of a missing occurrence as `None`. */
  function Index(s: seq<int>, sub: seq<int>, start: Option<int>, end: Option<int>): (r: Option<nat>)
    ensures var lo := Bound(start, 0, |s|); var hi := Bound(end, |s|, |s|);
      && (r.None? <==> forall q :: lo <= q && q + |sub| <= hi ==> !MatchAt(s, sub, q))
      && (r.Some? ==> lo <= r.value && r.value + |sub| <= hi && MatchAt(s, sub, r.value) &&
                      forall q :: lo <= q < r.value ==> !MatchAt(s, sub, q))
  {
    FindLeast(s, sub, start, end);
    var p := FindIn(s, sub, start, end);
    if p == -1 then None else Some(p)
  }

  /** What `find_all` returns: every occurrence in the slice. */
  function FindAllIn(s: seq<int>, sub: seq<int>, start: Option<int>, end: Option<int>): seq<nat> {
    AllMatches(s, sub, Bound(start, 0, |s|), Bound(end, |s|, |s|))
  }

  /** `find_all` answers every occurrence in the slice, overlapping ones
      included, each once and in increasing order. */
  lemma FindAllExact(s: seq<int>, sub: seq<int>, start: Option<int>, end: Option<int>)
    ensures var r := FindAllIn(s, sub, start, end);
      var lo := Bound(start, 0, |s|); var hi := Bound(end, |s|, |s|);
      && (forall k :: 0 <= k < |r| ==> lo <= r[k] && r[k] + |sub| <= hi && MatchAt(s, sub, r[k]))
      && (forall q :: lo <= q && q + |sub| <= hi && MatchAt(s, sub, q) ==> q in r)
      && (forall j, k :: 0 <= j < k < |r| ==> r[j] < r[k])
  {
    AllMatchesExact(s, sub, Bound(start, 0, |s|), Bound(end, |s|, |s|));
  }

  /** One turn of the loop of `find_all`: the next match from `p` on is the
      head of the remaining matches. */
  lemma FindAllStep(s: seq<int>, sub: seq<int>, p: nat, end: Option<int>, q: int)
    requires p <= |s|
    requires |sub| > 0 || Bound(end, |s|, |s|) < |s|
    requires q == FindIn(s, sub, Some(p), end)
    ensures q == -1 ==> AllMatches(s, sub, p, Bound(end, |s|, |s|)) == []
    ensures q != -1 ==> p <= q < |s|
    ensures q != -1 ==>
      AllMatches(s, sub, p, Bound(end, |s|, |s|)) == [q] + AllMatches(s, sub, q + 1, Bound(end, |s|, |s|))
  {
    var hi := Bound(end, |s|, |s|);
    assert Bound(Some(p), 0, |s|) == p;
    FindLeast(s, sub, Some(p), end);
    if AllMatches(s, sub, p, hi) != [] {
      AllMatchesHead(s, sub, p, hi);
    }
  }

  /** `find_all`: calls `find` from one past each occurrence until it fails.
      An empty `sub` matches again at the end of the text forever, so the
      source only terminates when `sub` is non-empty or the slice ends early. */
  method FindAll(s: seq<int>, sub: seq<int>, start: Option<int>, end: Option<int>) returns (r: seq<nat>)
    requires |sub| > 0 || Bound(end, |s|, |s|) < |s|
    ensures r == FindAllIn(s, sub, start, end)
  {
    var lo := Bound(start, 0, |s|);
    var hi := Bound(end, |s|, |s|);
    r := FindAllFrom(s, sub, lo, hi);
  }

  /** The loop of `find_all` over the slice `lo..hi`: `find` from the position
      after each match, until it answers -1. */
  method FindAllFrom(s: seq<int>, sub: seq<int>, lo: nat, hi: nat) returns (r: seq<nat>)
    requires lo <= |s| && hi <= |s|
    requires |sub| > 0 || hi < |s|
    ensures r == AllMatches(s, sub, lo, hi)
  {
    var pos: int := lo;
    r := [];
    ghost var rest := AllMatches(s, sub, lo, hi);
    while pos > -1
      invariant -1 <= pos <= |s|
      invariant r + rest == AllMatches(s, sub, lo, hi)
      invariant pos != -1 ==> rest == AllMatches(s, sub, pos, hi)
      invariant pos == -1 ==> rest == []
      decreases if pos == -1 then 0 else |s| + 2 - pos
    {
      pos := FindFrom(s, sub, pos, hi, rest);
      if pos > -1 {
        assert r + rest == (r + [pos]) + rest[1..];
        r, rest := r + [pos], rest[1..];
        pos := pos + 1;
      }
    }
    assert r + [] == r;
  }

  /** The call of `find` in the loop of `find_all`, with the end of the slice
      `hi` already counted from the front; `rest` is the matches from `p` on:
      `find` answers the first of them, and the others are the matches after
      it. */
  method FindFrom(s: seq<int>, sub: seq<int>, p: nat, hi: nat, ghost rest: seq<nat>) returns (q: int)
    requires p <= |s| && hi <= |s|
    requires |sub| > 0 || hi < |s|
    requires rest == AllMatches(s, sub, p, hi)
    ensures q == -1 ==> rest == []
    ensures q != -1 ==> p <= q < |s| && rest == [q] + AllMatches(s, sub, q + 1, hi)
  {
    q := Find(s, sub, Some(p), Some(hi));
    assert Bound(Some(hi), |s|, |s|) == hi;
    FindAllStep(s, sub, p, Some(hi), q);
  }

  // ----- replacing -----

  /** `s[a:b]` for bounds that are not negative. */
  function Between(s: seq<int>, a: nat, b: nat): seq<int> {
    var hi := if b <= |s| then b else |s|;
    if a < hi then s[a..hi] else []
  }

  /** The loop of `replace` from the copy position `pos` on: the text up to
      each replaced position, then `repl`, then on past the `targetLen` units
      replaced; finally the rest of the text. */
  function Splice(s: seq<int>, targetLen: nat, repl: seq<int>, reps: seq<nat>, pos: nat): seq<int>
    decreases |reps|
  {
    if reps == [] then Between(s, pos, |s|)
    else Between(s, pos, reps[0]) + repl + Splice(s, targetLen, repl, reps[1..], reps[0] + targetLen)
  }

  /** `count` as the stop of the slice `[None:count]` of a list of `n` items. */
  function Limit(count: Option<int>, n: nat): nat {
    Bound(count, n, n)
  }

  /** What `replace(target, repl, count)` returns: `repl` spliced in at the first
      `count` positions that `find_all(target)` reports. */
  function ReplaceIn(s: seq<int>, target: seq<int>, repl: seq<int>, count: Option<int>): seq<int> {
    var all := AllMatches(s, target, 0, |s|);
    Splice(s, |target|, repl, all[..Limit(count, |all|)], 0)
  }

  /** `replace`. `find_all` with an empty `target` does not terminate, so the
      source needs a non-empty `target`. */
  method Replace(s: seq<int>, target: seq<int>, repl: seq<int>, count: Option<int>) returns (r: seq<int>)
    requires |target| > 0
    ensures r == ReplaceIn(s, target, repl, count)
  {
    var all := FindAll(s, target, None, None);
    var reps := all[..Limit(count, |all|)];
    r := SpliceAll(s, |target|, repl, reps);
    ReplaceSplicesFound(s, target, repl, count);
  }

  /** The loop of `replace`: copies the text up to each replaced position, then
      `repl`, and moves the copy position past the replaced units. */
  method SpliceAll(s: seq<int>, targetLen: nat, repl: seq<int>, reps: seq<nat>) returns (r: seq<int>)
    ensures r == Splice(s, targetLen, repl, reps, 0)
  {
    var pos: nat := 0;
    var rest := reps;
    r := [];
    while rest != []
      invariant r + Splice(s, targetLen, repl, rest, pos) == Splice(s, targetLen, repl, reps, 0)
      decreases |rest|
    {
      SpliceNext(s, targetLen, repl, rest, pos, r, Splice(s, targetLen, repl, reps, 0));
      r, pos, rest := r + Between(s, pos, rest[0]) + repl, rest[0] + targetLen, rest[1..];
    }
    SpliceEnd(s, targetLen, repl, pos, r, Splice(s, targetLen, repl, reps, 0));
    r := r + Between(s, pos, |s|);
  }

  /** One turn of the loop of `replace`. */
  lemma SpliceNext(s: seq<int>, targetLen: nat, repl: seq<int>, rest: seq<nat>, pos: nat, done: seq<int>,
                   whole: seq<int>)
    requires rest != []
    requires done + Splice(s, targetLen, repl, rest, pos) == whole
    ensures ((done + Between(s, pos, rest[0])) + repl) + Splice(s, targetLen, repl, rest[1..], rest[0] + targetLen)
      == whole
  {
  }

  /** The last turn of the loop of `replace`: the rest of the text. */
  lemma SpliceEnd(s: seq<int>, targetLen: nat, repl: seq<int>, pos: nat, done: seq<int>, whole: seq<int>)
    requires done + Splice(s, targetLen, repl, [], pos) == whole
    ensures done + Between(s, pos, |s|) == whole
  {
  }

  /** `ReplaceIn` splices at the positions `find_all` reports over the whole text. */
  lemma ReplaceSplicesFound(s: seq<int>, target: seq<int>, repl: seq<int>, count: Option<int>)
    ensures var all := FindAllIn(s, target, None, None);
      ReplaceIn(s, target, repl, count) == Splice(s, |target|, repl, all[..Limit(count, |all|)], 0)
  {
    assert Bound(None, 0, |s|) == 0 && Bound(None, |s|, |s|) == |s|;
  }

  lemma BetweenToEnd(s: seq<int>, p: nat)
    requires p <= |s|
    ensures Between(s, p, |s|) == s[p..]
  {
  }

  /** `Splice` on a list that starts with `p`. */
  lemma SpliceHead(s: seq<int>, targetLen: nat, repl: seq<int>, p: nat, rest: seq<nat>, pos: nat)
    ensures Splice(s, targetLen, repl, [p] + rest, pos) ==
      Between(s, pos, p) + repl + Splice(s, targetLen, repl, rest, p + targetLen)
  {
    assert ([p] + rest)[1..] == rest;
  }

  /** The text between two positions, its first unit taken off. */
  lemma BetweenStep(s: seq<int>, a: nat, b: nat)
    requires a < b && a < |s|
    ensures Between(s, a, b) == [s[a]] + Between(s, a + 1, b)
  {
    var hi := if b <= |s| then b else |s|;
    assert s[a..hi] == [s[a]] + s[a + 1..hi];
  }

  /** A copy position before every remaining replaced position may start one
      unit later, that unit copied first. */
  lemma SpliceStep(s: seq<int>, targetLen: nat, repl: seq<int>, reps: seq<nat>, pos: nat)
    requires pos < |s|
    requires reps == [] || pos < reps[0]
    ensures Splice(s, targetLen, repl, reps, pos) == [s[pos]] + Splice(s, targetLen, repl, reps, pos + 1)
  {
    if reps == [] {
      BetweenStep(s, pos, |s|);
    } else {
      BetweenStep(s, pos, reps[0]);
      var tail := Splice(s, targetLen, repl, reps[1..], reps[0] + targetLen);
      assert Splice(s, targetLen, repl, reps, pos) == Between(s, pos, reps[0]) + repl + tail;
      assert Splice(s, targetLen, repl, reps, pos + 1) == Between(s, pos + 1, reps[0]) + repl + tail;
    }
  }

  /** Each unit equal to `a` written as `repl`, every other unit kept. */
  function Respell(t: seq<int>, a: int, repl: seq<int>): (r: seq<int>)
    ensures a !in t ==> r == t
  {
    if t == [] then [] else (if t[0] == a then repl else [t[0]]) + Respell(t[1..], a, repl)
  }

  /** Replacing a single unit rewrites exactly the occurrences of that unit. */
  lemma ReplaceOneUnit(s: seq<int>, a: int, repl: seq<int>)
    ensures ReplaceIn(s, [a], repl, None) == Respell(s, a, repl)
  {
    var all := AllMatches(s, [a], 0, |s|);
    assert all[..Limit(None, |all|)] == all;
    SpliceOneUnit(s, a, repl, 0);
  }

  lemma {:induction false} SpliceOneUnit(s: seq<int>, a: int, repl: seq<int>, p: nat)
    requires p <= |s|
    ensures Splice(s, 1, repl, AllMatches(s, [a], p, |s|), p) == Respell(s[p..], a, repl)
    decreases |s| - p
  {
    if p < |s| {
      SpliceOneUnit(s, a, repl, p + 1);
      SpliceOneUnitStep(s, a, repl, p);
    }
  }

  /** One unit of `SpliceOneUnit`: the unit at `p` is replaced or copied. */
  lemma SpliceOneUnitStep(s: seq<int>, a: int, repl: seq<int>, p: nat)
    requires p < |s|
    requires Splice(s, 1, repl, AllMatches(s, [a], p + 1, |s|), p + 1) == Respell(s[p + 1..], a, repl)
    ensures Splice(s, 1, repl, AllMatches(s, [a], p, |s|), p) == Respell(s[p..], a, repl)
  {
    var rest := AllMatches(s, [a], p + 1, |s|);
    RespellFrom(s, p, a, repl);
    UnitMatchStep(s, a, p, |s|);
    if s[p] == a {
      SpliceHit(s, repl, p, rest);
    } else {
      AllMatchesStart(s, [a], p + 1, |s|);
      SpliceStep(s, 1, repl, rest, p);
    }
  }

  /** A single unit replaced at the copy position. */
  lemma SpliceHit(s: seq<int>, repl: seq<int>, p: nat, rest: seq<nat>)
    ensures Splice(s, 1, repl, [p] + rest, p) == repl + Splice(s, 1, repl, rest, p + 1)
  {
    SpliceHead(s, 1, repl, p, rest, p);
    assert Between(s, p, p) == [];
  }

  lemma RespellFrom(s: seq<int>, p: nat, a: int, repl: seq<int>)
    requires p < |s|
    ensures Respell(s[p..], a, repl) == (if s[p] == a then repl else [s[p]]) + Respell(s[p + 1..], a, repl)
  {
    assert s[p..][1..] == s[p + 1..];
  }

  /** One position of the scan for a single unit. */
  lemma UnitMatchStep(s: seq<int>, a: int, q: nat, hi: nat)
    requires q < hi <= |s|
    ensures AllMatches(s, [a], q, hi) == (if s[q] == a then [q] else []) + AllMatches(s, [a], q + 1, hi)
  {
    assert s[q..q + 1] == [s[q]];
  }

  // `replace` splices at every position `find_all` reports, and `find_all`
  // reports overlapping occurrences; so for a `target` that overlaps itself the
  // copy position runs past the next replaced position and text is duplicated
  // (`Between` then yields nothing, but `repl` is still inserted). The intended
  // behaviour, that of `str.replace`, takes the occurrences left to right
  // without overlap.

  /** The replacement of `[1, 1]` by itself in `[1, 1, 1]` yields four units. */
  lemma ReplaceOverlapDuplicates()
    ensures ReplaceIn([1, 1, 1], [1, 1], [1, 1], None) == [1, 1, 1, 1]
  {
    var s := [1, 1, 1];
    assert s[0..2] == [1, 1] && s[1..3] == [1, 1];
    assert AllMatches(s, [1, 1], 2, 3) == [];
    assert AllMatches(s, [1, 1], 0, 3) == [0, 1];
    var all := AllMatches(s, [1, 1], 0, 3);
    assert all[..Limit(None, |all|)] == [0, 1];
    assert Splice(s, 2, [1, 1], [1], 2) == [1, 1];
  }

  /** The occurrences of `target` taken left to right without overlap. */
  function DisjointMatches(s: seq<int>, target: seq<int>, p: nat): seq<nat>
    requires |target| > 0
    decreases |s| + 1 - p
  {
    if p + |target| > |s| then []
    else if s[p..p + |target|] == target then [p] + DisjointMatches(s, target, p + |target|)
    else DisjointMatches(s, target, p + 1)
  }

  /** The occurrences taken without overlap are occurrences, from `p` on, each
      starting after the previous one ends. */
  lemma {:induction false} DisjointMatchesApart(s: seq<int>, target: seq<int>, p: nat)
    requires |target| > 0
    ensures forall k :: 0 <= k < |DisjointMatches(s, target, p)| ==>
      var q := DisjointMatches(s, target, p)[k]; p <= q && MatchAt(s, target, q)
    ensures forall j, k :: 0 <= j < k < |DisjointMatches(s, target, p)| ==>
      DisjointMatches(s, target, p)[j] + |target| <= DisjointMatches(s, target, p)[k]
    decreases |s| + 1 - p
  {
    if p + |target| <= |s| {
      if s[p..p + |target|] == target {
        var rest := DisjointMatches(s, target, p + |target|);
        DisjointMatchesApart(s, target, p + |target|);
        assert DisjointMatches(s, target, p) == [p] + rest;
        assert MatchAt(s, target, p);
      } else {
        DisjointMatchesApart(s, target, p + 1);
        assert DisjointMatches(s, target, p) == DisjointMatches(s, target, p + 1);
      }
    }
  }

  lemma {:induction false} DisjointMatchesStart(s: seq<int>, target: seq<int>, p: nat)
    requires |target| > 0
    ensures DisjointMatches(s, target, p) == [] || p <= DisjointMatches(s, target, p)[0]
    decreases |s| + 1 - p
  {
    if p + |target| <= |s| && s[p..p + |target|] != target {
      DisjointMatchesStart(s, target, p + 1);
    }
  }

  /** `replace` as intended: `repl` spliced in at the first `count` occurrences
      of `target` taken without overlap. */
  function ReplaceDisjoint(s: seq<int>, target: seq<int>, repl: seq<int>, count: Option<int>): seq<int>
    requires |target| > 0
  {
    var all := DisjointMatches(s, target, 0);
    Splice(s, |target|, repl, all[..Limit(count, |all|)], 0)
  }

  /** Replacing a text by itself changes nothing. */
  lemma ReplaceDisjointIdentity(s: seq<int>, target: seq<int>)
    requires |target| > 0
    ensures ReplaceDisjoint(s, target, target, None) == s
  {
    var all := DisjointMatches(s, target, 0);
    assert all[..Limit(None, |all|)] == all;
    SpliceDisjointIdentity(s, target, 0);
  }

  lemma {:induction false} SpliceDisjointIdentity(s: seq<int>, target: seq<int>, p: nat)
    requires |target| > 0 && p <= |s|
    ensures Splice(s, |target|, target, DisjointMatches(s, target, p), p) == s[p..]
    decreases |s| - p, 1
  {
    if p + |target| > |s| {
      SpliceNoRoom(s, target, p);
    } else if s[p..p + |target|] == target {
      SpliceMatched(s, target, p);
    } else {
      SpliceUnmatched(s, target, p);
    }
  }

  /** The identity where `target` no longer fits. */
  lemma SpliceNoRoom(s: seq<int>, target: seq<int>, p: nat)
    requires |target| > 0 && p <= |s| && p + |target| > |s|
    ensures Splice(s, |target|, target, DisjointMatches(s, target, p), p) == s[p..]
  {
    assert DisjointMatches(s, target, p) == [];
    BetweenToEnd(s, p);
  }

  /** The identity at an occurrence, from the identity after it. */
  lemma {:induction false} SpliceMatched(s: seq<int>, target: seq<int>, p: nat)
    requires |target| > 0 && p + |target| <= |s| && s[p..p + |target|] == target
    ensures Splice(s, |target|, target, DisjointMatches(s, target, p), p) == s[p..]
    decreases |s| - p, 0
  {
    SpliceDisjointIdentity(s, target, p + |target|);
    var rest := DisjointMatches(s, target, p + |target|);
    calc {
      Splice(s, |target|, target, DisjointMatches(s, target, p), p);
      Splice(s, |target|, target, [p] + rest, p);
      { SpliceHead(s, |target|, target, p, rest, p); }
      Between(s, p, p) + target + s[p + |target|..];
      { assert Between(s, p, p) == []; }
      s[p..p + |target|] + s[p + |target|..];
      s[p..];
    }
  }

  /** The identity at a unit where no occurrence starts, from the identity one
      unit later. */
  lemma {:induction false} SpliceUnmatched(s: seq<int>, target: seq<int>, p: nat)
    requires |target| > 0 && p + |target| <= |s| && s[p..p + |target|] != target
    ensures Splice(s, |target|, target, DisjointMatches(s, target, p), p) == s[p..]
    decreases |s| - p, 0
  {
    SpliceDisjointIdentity(s, target, p + 1);
    SpliceUnmatchedStep(s, target, p);
    assert s[p..] == [s[p]] + s[p + 1..];
  }

  /** Where `target` does not start at `p`, the unit at `p` is copied. */
  lemma SpliceUnmatchedStep(s: seq<int>, target: seq<int>, p: nat)
    requires |target| > 0 && p + |target| <= |s| && s[p..p + |target|] != target
    ensures Splice(s, |target|, target, DisjointMatches(s, target, p), p)
      == [s[p]] + Splice(s, |target|, target, DisjointMatches(s, target, p + 1), p + 1)
  {
    var rest := DisjointMatches(s, target, p + 1);
    assert DisjointMatches(s, target, p) == rest;
    DisjointMatchesStart(s, target, p + 1);
    SpliceStep(s, |target|, target, rest, p);
  }

  /** A single unit cannot overlap itself: for it the intended and the written
      `replace` agree, whatever the count. */
  lemma ReplaceAgreesOnOneUnit(s: seq<int>, a: int, repl: seq<int>, count: Option<int>)
    ensures ReplaceIn(s, [a], repl, count) == ReplaceDisjoint(s, [a], repl, count)
  {
    MatchesOfOneUnit(s, a, 0);
  }

  lemma {:induction false} MatchesOfOneUnit(s: seq<int>, a: int, p: nat)
    requires p <= |s|
    ensures DisjointMatches(s, [a], p) == AllMatches(s, [a], p, |s|)
    decreases |s| - p
  {
    if p < |s| {
      MatchesOfOneUnit(s, a, p + 1);
    }
  }

  /** Consecutive positions of `m` at least `len` apart: no two occurrences
      of that length overlap. */
  predicate Apart(m: seq<nat>, len: nat) {
    forall j :: 0 <= j < |m| - 1 ==> m[j] + len <= m[j + 1]
  }

  /** When no two occurrences of `target` overlap, the written and the intended
      `replace` agree, whatever the count. */
  lemma ReplaceAgreesWithoutOverlap(s: seq<int>, target: seq<int>, repl: seq<int>, count: Option<int>)
    requires |target| > 0
    requires Apart(AllMatches(s, target, 0, |s|), |target|)
    ensures ReplaceIn(s, target, repl, count) == ReplaceDisjoint(s, target, repl, count)
  {
    MatchesApartAgree(s, target, 0);
  }

  /** Occurrences that do not overlap are exactly those taken left to right
      without overlap. */
  lemma {:induction false} MatchesApartAgree(s: seq<int>, target: seq<int>, p: nat)
    requires |target| > 0 && p <= |s|
    requires Apart(AllMatches(s, target, p, |s|), |target|)
    ensures DisjointMatches(s, target, p) == AllMatches(s, target, p, |s|)
    decreases |s| - p
  {
    if p + |target| <= |s| {
      if s[p..p + |target|] != target {
        MatchesApartAgree(s, target, p + 1);
      } else {
        var all := AllMatches(s, target, p, |s|);
        var next := p + |target|;
        assert all == [p] + AllMatches(s, target, p + 1, |s|);
        AllMatchesPastFirst(s, target, p);
        assert AllMatches(s, target, next, |s|) == all[1..];
        MatchesApartAgree(s, target, next);
      }
    }
  }

  /** The occurrences after one at `p` start past its end. */
  lemma AllMatchesPastFirst(s: seq<int>, target: seq<int>, p: nat)
    requires |target| > 0 && p + |target| <= |s| && s[p..p + |target|] == target
    requires Apart(AllMatches(s, target, p, |s|), |target|)
    ensures AllMatches(s, target, p + 1, |s|) == AllMatches(s, target, p + |target|, |s|)
  {
    MatchesAfterFirst(s, target, p);
    var next := p + |target|;
    // where the scan from `p + 1` may jump to: the end of the occurrence, or
    // the last position at which `target` still fits
    var q := if next + |target| <= |s| + 1 then next else |s| + 1 - |target|;
    AllMatchesSkip(s, target, p + 1, q, |s|);
  }

  /** After an occurrence at `p`, the next one starts no earlier than its
      end when the occurrences are apart. */
  lemma MatchesAfterFirst(s: seq<int>, target: seq<int>, p: nat)
    requires |target| > 0 && p + |target| <= |s| && s[p..p + |target|] == target
    requires Apart(AllMatches(s, target, p, |s|), |target|)
    ensures forall x :: p < x && MatchAt(s, target, x) ==> p + |target| <= x
  {
    var all := AllMatches(s, target, p, |s|);
    assert all == [p] + AllMatches(s, target, p + 1, |s|);
    AllMatchesExact(s, target, p, |s|);
    forall x | p < x && MatchAt(s, target, x)
      ensures p + |target| <= x
    {
      assert x in all;
      var k :| 0 <= k < |all| && all[k] == x;
      assert all[0] + |target| <= all[1] <= all[k];
    }
  }

  /** The intended `replace` with a single unit respells exactly its occurrences. */
  lemma ReplaceDisjointOneUnit(s: seq<int>, a: int, repl: seq<int>)
    ensures ReplaceDisjoint(s, [a], repl, None) == Respell(s, a, repl)
  {
    ReplaceAgreesOnOneUnit(s, a, repl, None);
    ReplaceOneUnit(s, a, repl);
  }

  // ----- prefix and suffix -----

  /** `startswith`: `sub` is a prefix of the slice. */
  function StartsWith(s: seq<int>, sub: seq<int>, start: Option<int>, end: Option<int>): (r: bool)
    ensures r <==> sub <= Sliced(s, start, end)
  {
    var sliced := Sliced(s, start, end);
    |sub| <= |sliced| && Sliced(sliced, None, Some(|sub|)) == sub
  }

  /** `endswith` as written: the test takes `sliced[-len(sub):]`, and for an
      empty `sub` that is `sliced[0:]`, the whole slice. */
  function EndsWithAsWritten(s: seq<int>, sub: seq<int>, start: Option<int>, end: Option<int>): (r: bool)
    ensures var sl := Sliced(s, start, end);
      r <==> (|sub| > 0 || sl == []) && |sub| <= |sl| && sl[|sl| - |sub|..] == sub
  {
    var sliced := Sliced(s, start, end);
    |sub| <= |sliced| && Sliced(sliced, Some(-1 * |sub|), None) == sub
  }

  /** `endswith` as intended: `sub` is a suffix of the slice. */
  function EndsWith(s: seq<int>, sub: seq<int>, start: Option<int>, end: Option<int>): (r: bool)
    ensures r <==> exists prefix :: prefix + sub == Sliced(s, start, end)
  {
    var sliced := Sliced(s, start, end);
    if |sub| <= |sliced| && sliced[|sliced| - |sub|..] == sub then
      assert sliced[..|sliced| - |sub|] + sub == sliced;
      true
    else
      false
  }

  /** Every text ends with the empty text, but the written test denies it for
      any non-empty slice. */
  lemma EndsWithEmptyDenied()
    ensures !EndsWithAsWritten([0x61], [], None, None)
    ensures EndsWith([0x61], [], None, None)
  {
  }

  /** The two agree on every non-empty `sub`. */
  lemma EndsWithAgreesOnNonEmpty(s: seq<int>, sub: seq<int>, start: Option<int>, end: Option<int>)
    requires |sub| > 0
    ensures EndsWithAsWritten(s, sub, start, end) == EndsWith(s, sub, start, end)
  {
  }
}
