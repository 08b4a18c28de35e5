/**
  Sequence operations with the meaning of the .NET `List<T>` calls the mesh
  editor makes: `IndexOf`, `Remove`, the "add if IndexOf is -1" deduplication
  idiom, and the forward `for` loop that calls `RemoveAt(i)` on a hit.
 */
module Lists {

  datatype Option<T> = None | Some(value: T)

  predicate Distinct<T(==)>(s: seq<T>) {
    forall i, j :: 0 <= i < j < |s| ==> s[i] != s[j]
  }

  /** `List.IndexOf`: the first position holding x, or -1 when x is absent. */
  function IndexOf<T(==)>(s: seq<T>, x: T): (r: int)
    ensures -1 <= r < |s|
    ensures r == -1 <==> x !in s
    ensures r >= 0 ==> s[r] == x && x !in s[..r]
  {
    if |s| == 0 then -1
    else if s[0] == x then 0
    else
      var k := IndexOf(s[1..], x);
      if k == -1 then -1
      else
        assert s[..k + 1] == [s[0]] + s[1..][..k];
        k + 1
  }

  lemma {:induction false} IndexOfAppend<T>(s: seq<T>, t: seq<T>, x: T)
    requires x in s
    ensures IndexOf(s + t, x) == IndexOf(s, x)
  {
    var k := IndexOf(s, x);
    assert (s + t)[..k] == s[..k];
    assert (s + t)[k] == x;
  }

  /** `List.Remove`: drops the first occurrence of x and nothing else. */
  function RemoveFirst<T(==)>(s: seq<T>, x: T): (r: seq<T>)
    ensures x !in s ==> r == s
    ensures x in s ==> |r| == |s| - 1
  {
    if x in s then
      var i := IndexOf(s, x);
      s[..i] + s[i + 1..]
    else
      s
  }

  /** `List.Remove` cuts x out at its first position and keeps the elements
      before and after it in their order. */
  lemma RemoveFirstAt<T>(p: seq<T>, x: T, q: seq<T>)
    requires x !in p
    ensures RemoveFirst(p + [x] + q, x) == p + q
  {
  }

  /** `List.Remove` takes away one copy of x, if there is one. */
  lemma RemoveFirstCounts<T>(s: seq<T>, x: T)
    ensures multiset(RemoveFirst(s, x)) == multiset(s) - multiset{x}
  {
    if x in s {
      var i := IndexOf(s, x);
      assert RemoveFirst(s, x) == s[..i] + s[i + 1..];
      assert s == s[..i] + [x] + s[i + 1..];
      CancelOne(s[..i], x, s[i + 1..]);
    } else {
      assert RemoveFirst(s, x) == s;
      assert multiset(s)[x] == 0;
    }
  }

  lemma CancelOne<T>(a: seq<T>, x: T, b: seq<T>)
    ensures multiset(a + b) == multiset(a + [x] + b) - multiset{x}
  {
    assert multiset(a + [x] + b) == multiset(a) + multiset{x} + multiset(b);
  }

  /** One `List.Remove` call per element of xs, in the order of xs. */
  function RemoveEach<T(==)>(s: seq<T>, xs: seq<T>): (r: seq<T>)
    ensures |s| - |xs| <= |r| <= |s|
    decreases |xs|
  {
    if xs == [] then s
    else
      var n := |xs| - 1;
      RemoveFirst(RemoveEach(s, xs[..n]), xs[n])
  }

  /** Removing each of xs takes away one copy per occurrence in xs. */
  lemma {:induction false} RemoveEachCounts<T>(s: seq<T>, xs: seq<T>)
    ensures multiset(RemoveEach(s, xs)) == multiset(s) - multiset(xs)
    decreases |xs|
  {
    if xs != [] {
      var n := |xs| - 1;
      assert xs == xs[..n] + [xs[n]];
      RemoveEachCounts(s, xs[..n]);
      RemoveFirstCounts(RemoveEach(s, xs[..n]), xs[n]);
    }
  }

  lemma {:induction false} RemoveEachSnoc<T>(s: seq<T>, xs: seq<T>, x: T)
    ensures RemoveEach(s, xs + [x]) == RemoveFirst(RemoveEach(s, xs), x)
  {
    assert (xs + [x])[..|xs|] == xs;
  }

  lemma RemoveEachPrefix<T>(s: seq<T>, xs: seq<T>, j: nat)
    requires j < |xs|
    ensures RemoveEach(s, xs[..j + 1]) == RemoveFirst(RemoveEach(s, xs[..j]), xs[j])
  {
    assert xs[..j + 1][..j] == xs[..j];
  }

  /** Removing the elements of a + b is removing those of a, then those of b. */
  lemma {:induction false} RemoveEachAppend<T>(s: seq<T>, a: seq<T>, b: seq<T>)
    ensures RemoveEach(s, a + b) == RemoveEach(RemoveEach(s, a), b)
    decreases |b|
  {
    if b == [] {
      assert a + b == a;
    } else {
      var n := |b| - 1;
      assert a + b == (a + b[..n]) + [b[n]];
      assert b == b[..n] + [b[n]];
      RemoveEachSnoc(s, a + b[..n], b[n]);
      RemoveEachAppend(s, a, b[..n]);
      RemoveEachSnoc(RemoveEach(s, a), b[..n], b[n]);
    }
  }

  /** A value registered at most once is gone once it has been removed. */
  lemma RemoveEachGone<T>(s: seq<T>, xs: seq<T>, x: T)
    requires multiset(s)[x] <= 1
    requires x in xs
    ensures x !in RemoveEach(s, xs)
  {
    RemoveEachCounts(s, xs);
    assert multiset(xs)[x] >= 1;
    assert multiset(RemoveEach(s, xs))[x] == 0;
  }

  /** A value never named by xs keeps every one of its occurrences. */
  lemma RemoveEachKeeps<T>(s: seq<T>, xs: seq<T>, x: T)
    requires x !in xs
    ensures multiset(RemoveEach(s, xs))[x] == multiset(s)[x]
  {
    RemoveEachCounts(s, xs);
    assert multiset(xs)[x] == 0;
  }

  /** The loop `foreach (x in xs) list.Remove(x);`. */
  method RemoveEvery<T(==)>(s: seq<T>, xs: seq<T>) returns (r: seq<T>)
    ensures r == RemoveEach(s, xs)
  {
    r := s;
    for j := 0 to |xs|
      invariant r == RemoveEach(s, xs[..j])
    {
      RemoveEachPrefix(s, xs, j);
      r := RemoveFirst(r, xs[j]);
    }
    assert xs[..|xs|] == xs;
  }

  /** A list without repeats holds each value at most once. */
  lemma {:induction false} DistinctCountsOnce<T>(s: seq<T>, x: T)
    requires Distinct(s)
    ensures multiset(s)[x] <= 1
    decreases |s|
  {
    if s != [] {
      var n := |s| - 1;
      assert s == s[..n] + [s[n]];
      assert Distinct(s[..n]);
      DistinctCountsOnce(s[..n], x);
      if s[n] == x {
        assert x !in s[..n];
      }
    }
  }

  /** The distinct elements of s in order of first occurrence: the
      `if (list.IndexOf(x) == -1) list.Add(x)` loop. */
  function Dedup<T(==)>(s: seq<T>): (r: seq<T>)
    ensures Distinct(r)
    ensures forall x :: x in r ==> x in s
    ensures forall x :: x in s ==> x in r
    ensures |r| <= |s|
    decreases |s|
  {
    if s == [] then []
    else
      var n := |s| - 1;
      var d := Dedup(s[..n]);
      assert forall x :: x in s ==> x in s[..n] || x == s[n] by {
        assert s == s[..n] + [s[n]];
      }
      if s[n] in d then d else d + [s[n]]
  }

  lemma {:induction false} DedupSnoc<T>(s: seq<T>, x: T)
    ensures Dedup(s + [x]) == if x in Dedup(s) then Dedup(s) else Dedup(s) + [x]
  {
    assert (s + [x])[..|s|] == s;
  }

  lemma DedupPrefix<T>(seen: seq<T>, xs: seq<T>, j: nat)
    requires j < |xs|
    ensures Dedup(seen + xs[..j + 1])
         == if xs[j] in Dedup(seen + xs[..j]) then Dedup(seen + xs[..j]) else Dedup(seen + xs[..j]) + [xs[j]]
  {
    assert seen + xs[..j + 1] == (seen + xs[..j]) + [xs[j]];
    DedupSnoc(seen + xs[..j], xs[j]);
  }

  /** Dedup keeps first-occurrence order: an element listed earlier in Dedup(s)
      first occurs earlier in s. */
  lemma {:induction false} DedupOrder<T>(s: seq<T>, i: nat, j: nat)
    requires i < j < |Dedup(s)|
    ensures IndexOf(s, Dedup(s)[i]) < IndexOf(s, Dedup(s)[j])
    decreases |s|
  {
    var n := |s| - 1;
    var p := s[..n];
    assert s == p + [s[n]];
    var d := Dedup(p);
    if s[n] in d {
      DedupOrder(p, i, j);
      IndexOfAppend(p, [s[n]], d[i]);
      IndexOfAppend(p, [s[n]], d[j]);
    } else if j < |d| {
      DedupOrder(p, i, j);
      IndexOfAppend(p, [s[n]], d[i]);
      IndexOfAppend(p, [s[n]], d[j]);
    } else {
      IndexOfAppend(p, [s[n]], d[i]);
      assert s[n] !in p;
      assert IndexOf(s, s[n]) == n by {
        assert s[..n] == p;
      }
    }
  }

  /** A list without repeats has as many elements as its set. */
  lemma {:induction false} DistinctCard<T>(s: seq<T>)
    requires Distinct(s)
    ensures |set x | x in s| == |s|
    decreases |s|
  {
    if s != [] {
      var n := |s| - 1;
      DistinctCard(s[..n]);
      assert s[n] !in s[..n];
      assert (set x | x in s) == (set x | x in s[..n]) + {s[n]} by {
        assert s == s[..n] + [s[n]];
      }
    }
  }

  /** Two lists without repeats that hold the same elements are equally long. */
  lemma SameElements<T>(a: seq<T>, b: seq<T>)
    requires Distinct(a) && Distinct(b) && forall x :: x in a <==> x in b
    ensures |a| == |b|
  {
    DistinctCard(a);
    DistinctCard(b);
    assert (set x | x in a) == (set x | x in b);
  }

  /** Four pairwise different values, listed, make a list without repeats. */
  lemma DistinctFour<T>(a: T, b: T, c: T, d: T)
    requires a != b && a != c && a != d && b != c && b != d && c != d
    ensures Distinct([a, b, c, d])
  {
  }

  /** Taking two copies of x out of a list leaves the rest, in order. */
  lemma TwoOut<T>(a: seq<T>, b: seq<T>, c: seq<T>, x: T)
    ensures multiset(a + [x] + b + [x] + c) == multiset(a + b + c) + multiset{x, x}
  {
  }

  /** In a list holding the distinct elements of outer once each and s (not
      among them) twice, the elements occurring exactly once are those of
      outer. */
  lemma OnceExceptPair<T>(uses: seq<T>, s: T, outer: seq<T>)
    requires Distinct(outer) && s !in outer
    requires multiset(uses) == multiset(outer) + multiset{s, s}
    ensures forall x :: x in uses && multiset(uses)[x] == 1 <==> x in outer
  {
    forall x ensures x in uses && multiset(uses)[x] == 1 <==> x in outer {
      assert x in uses <==> x in multiset(uses);
      if x in outer {
        DistinctCountsOnce(outer, x);
      } else {
        assert multiset(outer)[x] == 0;
      }
    }
  }

  /** Every element of s appears in Dedup(s) exactly once. */
  lemma DedupCountsOnce<T>(s: seq<T>, x: T)
    requires x in s
    ensures multiset(Dedup(s))[x] == 1
  {
    DistinctCountsOnce(Dedup(s), x);
  }

  /** Deduplication of a list without repeats changes nothing, so applying it
      twice gives the same list as applying it once. */
  lemma {:induction false} DedupDistinct<T>(s: seq<T>)
    requires Distinct(s)
    ensures Dedup(s) == s
    decreases |s|
  {
    if s != [] {
      var n := |s| - 1;
      assert s == s[..n] + [s[n]];
      DedupDistinct(s[..n]);
      assert s[n] !in s[..n];
    }
  }

  lemma DedupIdempotent<T>(s: seq<T>)
    ensures Dedup(Dedup(s)) == Dedup(s)
  {
    DedupDistinct(Dedup(s));
  }

  /** The `if (list.IndexOf(x) == -1) list.Add(x)` loop over xs: extends the
      distinct list of seen by the new elements of xs, in order. */
  method AppendNew<T(==)>(acc: seq<T>, ghost seen: seq<T>, xs: seq<T>) returns (r: seq<T>)
    requires acc == Dedup(seen)
    ensures r == Dedup(seen + xs)
  {
    r := acc;
    assert seen + xs[..0] == seen;
    for j := 0 to |xs|
      invariant r == Dedup(seen + xs[..j])
    {
      DedupPrefix(seen, xs, j);
      if IndexOf(r, xs[j]) == -1 {
        r := r + [xs[j]];
      }
    }
    assert xs[..|xs|] == xs;
  }

  /** The elements of d whose number of occurrences in uses is exactly one,
      in the order of d (the `if (count[i] == 1) Add` loop). */
  function KeepOnce<T(==)>(d: seq<T>, uses: seq<T>): (r: seq<T>)
    ensures forall x :: x in r ==> x in d && multiset(uses)[x] == 1
    ensures forall x :: x in d && multiset(uses)[x] == 1 ==> x in r
    ensures |r| <= |d|
    decreases |d|
  {
    if d == [] then []
    else
      var n := |d| - 1;
      assert forall x :: x in d ==> x in d[..n] || x == d[n] by {
        assert d == d[..n] + [d[n]];
      }
      KeepOnce(d[..n], uses) + (if multiset(uses)[d[n]] == 1 then [d[n]] else [])
  }

  lemma {:induction false} KeepOnceDistinct<T>(d: seq<T>, uses: seq<T>)
    requires Distinct(d)
    ensures Distinct(KeepOnce(d, uses))
    decreases |d|
  {
    if d != [] {
      var n := |d| - 1;
      KeepOnceDistinct(d[..n], uses);
      assert d[n] !in d[..n];
    }
  }

  /** KeepOnce keeps the order of d. */
  lemma {:induction false} KeepOnceOrder<T>(d: seq<T>, uses: seq<T>, i: nat, j: nat)
    requires Distinct(d) && i < j < |KeepOnce(d, uses)|
    ensures IndexOf(d, KeepOnce(d, uses)[i]) < IndexOf(d, KeepOnce(d, uses)[j])
    decreases |d|
  {
    var n := |d| - 1;
    var p := d[..n];
    var k := KeepOnce(p, uses);
    assert d == p + [d[n]];
    assert KeepOnce(d, uses)[i] == k[i];
    IndexOfAppend(p, [d[n]], k[i]);
    if j < |k| {
      assert KeepOnce(d, uses)[j] == k[j];
      KeepOnceOrder(p, uses, i, j);
      IndexOfAppend(p, [d[n]], k[j]);
    } else {
      assert KeepOnce(d, uses)[j] == d[n];
      assert d[n] !in p;
      assert IndexOf(d, d[n]) == n by {
        assert d[..n] == p;
      }
    }
  }

  /**
    The list left by the loop
      `for (i = 0; i < all.Count; i++) if (all[i] is in del) all.RemoveAt(i);`
    After a removal the next element slides into slot i, and `i++` steps over
    it without looking at it.
   */
  function Sweep<T(==)>(s: seq<T>, del: seq<T>): (r: seq<T>)
    ensures forall x :: x in r ==> x in s
    ensures |r| <= |s|
    decreases |s|
  {
    if s == [] then []
    else if s[0] in del then
      if |s| == 1 then [] else [s[1]] + Sweep(s[2..], del)
    else [s[0]] + Sweep(s[1..], del)
  }

  /** The elements that loop does remove, in order. */
  function SweptOut<T(==)>(s: seq<T>, del: seq<T>): (r: seq<T>)
    ensures forall x :: x in r ==> x in s && x in del
    decreases |s|
  {
    if s == [] then []
    else if s[0] in del then
      [s[0]] + (if |s| == 1 then [] else SweptOut(s[2..], del))
    else SweptOut(s[1..], del)
  }

  /** The loop splits the list: every element is either kept or removed. */
  lemma {:induction false} SweepPartition<T>(s: seq<T>, del: seq<T>)
    ensures multiset(Sweep(s, del)) + multiset(SweptOut(s, del)) == multiset(s)
    decreases |s|
  {
    if s == [] {
    } else if s[0] in del && |s| == 1 {
      assert s == [s[0]];
    } else if s[0] in del {
      SweepPartition(s[2..], del);
      SweepPartitionHit(s, del);
    } else {
      SweepPartition(s[1..], del);
      SweepPartitionMiss(s, del);
    }
  }

  /** One step of `SweepPartition` at a removed element. */
  lemma SweepPartitionHit<T>(s: seq<T>, del: seq<T>)
    requires |s| >= 2 && s[0] in del
    requires multiset(Sweep(s[2..], del)) + multiset(SweptOut(s[2..], del)) == multiset(s[2..])
    ensures multiset(Sweep(s, del)) + multiset(SweptOut(s, del)) == multiset(s)
  {
    var t := s[2..];
    var a, b := Sweep(t, del), SweptOut(t, del);
    assert Sweep(s, del) == [s[1]] + a;
    assert SweptOut(s, del) == [s[0]] + b;
    MultisetCons2(s);
    assert multiset([s[1]] + a) == multiset{s[1]} + multiset(a);
    assert multiset([s[0]] + b) == multiset{s[0]} + multiset(b);
  }

  lemma MultisetCons1<T>(s: seq<T>)
    requires |s| >= 1
    ensures multiset(s) == multiset{s[0]} + multiset(s[1..])
  {
    assert s == [s[0]] + s[1..];
  }

  lemma MultisetCons2<T>(s: seq<T>)
    requires |s| >= 2
    ensures multiset(s) == multiset{s[0]} + multiset{s[1]} + multiset(s[2..])
  {
    assert s == [s[0]] + [s[1]] + s[2..];
  }

  /** One step of `SweepPartition` at a kept element. */
  lemma SweepPartitionMiss<T>(s: seq<T>, del: seq<T>)
    requires |s| >= 1 && s[0] !in del
    requires multiset(Sweep(s[1..], del)) + multiset(SweptOut(s[1..], del)) == multiset(s[1..])
    ensures multiset(Sweep(s, del)) + multiset(SweptOut(s, del)) == multiset(s)
  {
    var t := s[1..];
    var a := Sweep(t, del);
    assert Sweep(s, del) == [s[0]] + a;
    assert SweptOut(s, del) == SweptOut(t, del);
    MultisetCons1(s);
    assert multiset([s[0]] + a) == multiset{s[0]} + multiset(a);
  }

  /** The loop above run from slot i onwards, step by step: the list it
      leaves. */
  function SweepFrom<T(==)>(s: seq<T>, i: nat, del: seq<T>): seq<T>
    decreases |s| - i
  {
    if i >= |s| then s
    else if s[i] in del then SweepFrom(s[..i] + s[i + 1..], i + 1, del)
    else SweepFrom(s, i + 1, del)
  }

  /** The same loop from slot i: the elements it removes, in order. */
  function SweptFrom<T(==)>(s: seq<T>, i: nat, del: seq<T>): seq<T>
    decreases |s| - i
  {
    if i >= |s| then []
    else if s[i] in del then [s[i]] + SweptFrom(s[..i] + s[i + 1..], i + 1, del)
    else SweptFrom(s, i + 1, del)
  }

  /** Run over the whole list, the loop leaves `Sweep`: past the slot it has
      reached, it has kept the prefix. */
  lemma {:induction false} SweepFromPrefix<T>(p: seq<T>, r: seq<T>, del: seq<T>)
    ensures SweepFrom(p + r, |p|, del) == p + Sweep(r, del)
    decreases |r|
  {
    if r == [] {
      assert p + r == p;
    } else if r[0] in del {
      assert (p + r)[..|p|] + (p + r)[|p| + 1..] == p + r[1..];
      if |r| == 1 {
        assert p + r[1..] == p;
      } else {
        assert p + r[1..] == (p + [r[1]]) + r[2..];
        SweepFromPrefix(p + [r[1]], r[2..], del);
        assert p + [r[1]] + Sweep(r[2..], del) == p + ([r[1]] + Sweep(r[2..], del));
      }
    } else {
      assert p + r == (p + [r[0]]) + r[1..];
      SweepFromPrefix(p + [r[0]], r[1..], del);
      assert p + [r[0]] + Sweep(r[1..], del) == p + ([r[0]] + Sweep(r[1..], del));
    }
  }

  /** ... and it removes `SweptOut`. */
  lemma {:induction false} SweptFromPrefix<T>(p: seq<T>, r: seq<T>, del: seq<T>)
    ensures SweptFrom(p + r, |p|, del) == SweptOut(r, del)
    decreases |r|
  {
    if r == [] {
    } else if r[0] in del {
      assert (p + r)[..|p|] + (p + r)[|p| + 1..] == p + r[1..];
      if |r| > 1 {
        assert p + r[1..] == (p + [r[1]]) + r[2..];
        SweptFromPrefix(p + [r[1]], r[2..], del);
      }
    } else {
      assert p + r == (p + [r[0]]) + r[1..];
      SweptFromPrefix(p + [r[0]], r[1..], del);
    }
  }

  /** No two neighbours of s are both marked for deletion. */
  predicate NoAdjacentMarked<T(==)>(s: seq<T>, del: seq<T>) {
    forall i :: 0 <= i < |s| - 1 ==> !(s[i] in del && s[i + 1] in del)
  }

  /** When no two neighbours are marked, the loop removes exactly the marked
      elements. */
  lemma {:induction false} SweepWithoutNeighbours<T>(s: seq<T>, del: seq<T>)
    requires NoAdjacentMarked(s, del)
    ensures forall x :: x in Sweep(s, del) <==> x in s && x !in del
    ensures forall x :: x in SweptOut(s, del) <==> x in s && x in del
    decreases |s|
  {
    if s == [] {
    } else if s[0] in del {
      if |s| > 1 {
        assert s[1] !in del;
        var t := s[2..];
        assert NoAdjacentMarked(t, del) by {
          forall i | 0 <= i < |t| - 1 ensures !(t[i] in del && t[i + 1] in del) {
            assert t[i] == s[i + 2] && t[i + 1] == s[i + 3];
          }
        }
        SweepWithoutNeighbours(t, del);
        assert forall x :: x in s <==> x == s[0] || x == s[1] || x in t by {
          assert s == [s[0]] + [s[1]] + t;
        }
      }
    } else {
      var t := s[1..];
      assert NoAdjacentMarked(t, del) by {
        forall i | 0 <= i < |t| - 1 ensures !(t[i] in del && t[i + 1] in del) {
          assert t[i] == s[i + 1] && t[i + 1] == s[i + 2];
        }
      }
      SweepWithoutNeighbours(t, del);
      assert forall x :: x in s <==> x == s[0] || x in t by {
        assert s == [s[0]] + t;
      }
    }
  }

  /** Two marked neighbours: the second one survives the loop. */
  lemma SweepSkipsMarkedNeighbour<T>(a: T, b: T)
    requires a != b
    ensures Sweep([a, b], [a, b]) == [b]
    ensures SweptOut([a, b], [a, b]) == [a]
  {
    assert [a, b][2..] == [];
  }
}
