/** The array operations the source leans on: `find`, `filter`, `slice` and removal by position. */
module Lists {
  import opened Wrappers

  /** Position of the first element that satisfies `p`, or `|s|` when there is none. */
  function FirstIndex<T>(s: seq<T>, p: T -> bool): (k: nat)
    ensures k <= |s|
    ensures forall j :: 0 <= j < k ==> !p(s[j])
    ensures k < |s| ==> p(s[k])
  {
    if s == [] then 0
    else if p(s[0]) then 0
    else 1 + FirstIndex(s[1..], p)
  }

  /** `Array.prototype.find`, with `|| null` folded in: the first match, or nothing. */
  function Find<T>(s: seq<T>, p: T -> bool): (r: Option<T>)
    ensures r.None? <==> forall j :: 0 <= j < |s| ==> !p(s[j])
    ensures r.Some? ==> r.value == s[FirstIndex(s, p)] && p(r.value)
  {
    var k := FirstIndex(s, p);
    if k < |s| then Some(s[k]) else None
  }

  /** `Array.prototype.filter`: the elements that satisfy `p`, in their original order. */
  function Filter<T>(s: seq<T>, p: T -> bool): (r: seq<T>)
    ensures |r| <= |s|
    ensures forall j :: 0 <= j < |r| ==> p(r[j])
    ensures |r| == |s| <==> forall j :: 0 <= j < |s| ==> p(s[j])
    ensures r == [] <==> forall j :: 0 <= j < |s| ==> !p(s[j])
  {
    if s == [] then []
    else (if p(s[0]) then [s[0]] else []) + Filter(s[1..], p)
  }

  /** `filter` keeps exactly the elements that pass: each element kept comes from `s`, and
      each element of `s` that passes is kept. */
  lemma {:induction false} FilterMembers<T>(s: seq<T>, p: T -> bool)
    ensures forall x :: x in Filter(s, p) ==> x in s
    ensures forall j :: 0 <= j < |s| && p(s[j]) ==> s[j] in Filter(s, p)
  {
    if s != [] {
      FilterMembers(s[1..], p);
      var head := if p(s[0]) then [s[0]] else [];
      assert Filter(s, p) == head + Filter(s[1..], p);
      forall j | 1 <= j < |s| && p(s[j]) ensures s[j] in Filter(s, p) {
        assert s[j] == s[1..][j - 1];
      }
    }
  }

  /** Filtering distributes over concatenation, so it keeps the relative order of what it keeps. */
  lemma {:induction false} FilterConcat<T>(a: seq<T>, b: seq<T>, p: T -> bool)
    ensures Filter(a + b, p) == Filter(a, p) + Filter(b, p)
  {
    if a == [] {
      assert a + b == b;
    } else {
      assert (a + b)[1..] == a[1..] + b;
      FilterConcat(a[1..], b, p);
    }
  }

  /** Filtering a sequence extended by one element extends the result by that element when it
      passes. */
  lemma FilterSnoc<T>(s: seq<T>, x: T, p: T -> bool)
    ensures Filter(s + [x], p) == Filter(s, p) + (if p(x) then [x] else [])
  {
    FilterConcat(s, [x], p);
    assert [x][1..] == [];
  }

  /** `prev.filter((_, i) => i !== index)`: every element whose position differs from `index`. */
  function RemoveIndex<T>(s: seq<T>, index: int): (r: seq<T>)
    ensures 0 <= index < |s| ==> r == s[..index] + s[index + 1..]
    ensures !(0 <= index < |s|) ==> r == s
  {
    if s == [] then []
    else
      var rest := RemoveIndex(s[1..], index - 1);
      if index == 0 then rest else [s[0]] + rest
  }

  /** `s.slice(0, n)` for a non-negative `n`. */
  function Take<T>(s: seq<T>, n: nat): (r: seq<T>)
    ensures |r| == if n < |s| then n else |s|
    ensures r <= s
  {
    if n < |s| then s[..n] else s
  }

  /** `Array.prototype.map`. */
  function Map<T, U>(s: seq<T>, f: T -> U): (r: seq<U>)
    ensures |r| == |s|
    ensures forall i :: 0 <= i < |s| ==> r[i] == f(s[i])
  {
    seq(|s|, i requires 0 <= i < |s| => f(s[i]))
  }

  /** The elements that satisfy `hit` replaced by `f` of themselves, the others kept. */
  function MapWhere<T>(s: seq<T>, hit: T -> bool, f: T -> T): (r: seq<T>)
    ensures |r| == |s|
    ensures forall i :: 0 <= i < |s| ==> r[i] == if hit(s[i]) then f(s[i]) else s[i]
  {
    seq(|s|, i requires 0 <= i < |s| => if hit(s[i]) then f(s[i]) else s[i])
  }

  /** Two sequences that satisfy `p` at the same positions have their first match at the same place. */
  lemma FirstIndexSamePattern<T>(s: seq<T>, t: seq<T>, p: T -> bool)
    requires |s| == |t|
    requires forall i :: 0 <= i < |s| ==> (p(s[i]) <==> p(t[i]))
    ensures FirstIndex(s, p) == FirstIndex(t, p)
  {
  }

  /** Rewriting the matching elements with an `f` that keeps them matching rewrites the one
      `find` returns in the same way. */
  lemma FindAfterMapWhere<T>(s: seq<T>, hit: T -> bool, f: T -> T)
    requires forall x :: hit(x) ==> hit(f(x))
    ensures Find(MapWhere(s, hit, f), hit) ==
            if Find(s, hit).Some? then Some(f(Find(s, hit).value)) else None
  {
    var t := MapWhere(s, hit, f);
    FirstIndexSamePattern(s, t, hit);
  }

  /** Appending an element that matches, to a sequence where nothing does, makes it the one found. */
  lemma FindAppended<T>(s: seq<T>, x: T, p: T -> bool)
    requires forall i :: 0 <= i < |s| ==> !p(s[i])
    requires p(x)
    ensures Find(s + [x], p) == Some(x)
  {
    assert forall i :: 0 <= i < |s| ==> (s + [x])[i] == s[i];
    assert (s + [x])[|s|] == x;
  }

  /** Mapping distributes over concatenation. */
  lemma MapConcat<T, U>(a: seq<T>, b: seq<T>, f: T -> U)
    ensures Map(a + b, f) == Map(a, f) + Map(b, f)
  {
    assert forall i :: 0 <= i < |a| ==> (a + b)[i] == a[i];
    assert forall i :: |a| <= i < |a| + |b| ==> (a + b)[i] == b[i - |a|];
  }

  /** The first match after `map` sits where the first match of the test read through the
      mapping sits. */
  lemma {:induction false} FirstIndexMapped<T, U>(s: seq<T>, f: T -> U, p: U -> bool, q: T -> bool)
    requires forall x :: q(x) == p(f(x))
    ensures FirstIndex(Map(s, f), p) == FirstIndex(s, q)
  {
    if s != [] {
      assert Map(s, f)[1..] == Map(s[1..], f);
      FirstIndexMapped(s[1..], f, p, q);
    }
  }

  /** `map` then `find` returns the mapped image of what `find` returns on the original
      sequence with the test read through the mapping. */
  lemma FindMapped<T, U>(s: seq<T>, f: T -> U, p: U -> bool, q: T -> bool)
    requires forall x :: q(x) == p(f(x))
    ensures Find(Map(s, f), p) == if Find(s, q).Some? then Some(f(Find(s, q).value)) else None
  {
    FirstIndexMapped(s, f, p, q);
  }

  /** Some element carries `v` under `key`. */
  predicate Taken<T>(s: seq<T>, v: string, key: T -> string) {
    exists i :: 0 <= i < |s| && key(s[i]) == v
  }

  /** The test that an element carries `v` under `key`: `x => x.id === id`. */
  function HasKey<T>(key: T -> string, v: string): T -> bool {
    (x: T) => key(x) == v
  }
}
