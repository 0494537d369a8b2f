/**
 * Stable sorting by a comparator, as `slice::sort_by` and
 * `slice::sort_by_key` provide it. The specification is insertion sort
 * (stable by construction: an element is placed before the first element it
 * is not greater than, so it stays ahead of the equal elements that followed
 * it); the method is the loop that runs it.
 */
module Sorting {

  import opened Json

  /** A comparator that orders consistently: antisymmetric and transitive. */
  ghost predicate TotalPreorder<T(!new)>(cmp: (T, T) -> Ordering)
  {
    (forall a, b :: cmp(b, a) == cmp(a, b).Reverse())
    && (forall a, b, c :: cmp(a, b) != Greater && cmp(b, c) != Greater ==> cmp(a, c) != Greater)
  }

  /**
   * The same two laws, required only of the elements of `dom`: a comparator
   * such as the document comparator is consistent on some collections and
   * not on others.
   */
  ghost predicate PreorderOn<T>(cmp: (T, T) -> Ordering, dom: set<T>)
  {
    (forall a, b :: a in dom && b in dom ==> cmp(b, a) == cmp(a, b).Reverse())
    && (forall a, b, c :: a in dom && b in dom && c in dom && cmp(a, b) != Greater && cmp(b, c) != Greater
          ==> cmp(a, c) != Greater)
  }

  /** Every element of `xs` lies in `dom`. */
  ghost predicate Within<T>(xs: seq<T>, dom: set<T>)
  {
    forall x :: x in xs ==> x in dom
  }

  /** Every element is not greater than the next one. */
  predicate SortedBy<T>(xs: seq<T>, cmp: (T, T) -> Ordering)
  {
    forall i :: 0 < i < |xs| ==> cmp(xs[i - 1], xs[i]) != Greater
  }

  /** Place `x` before the first element of `ys` that it is not greater than. */
  function Insert<T>(x: T, ys: seq<T>, cmp: (T, T) -> Ordering): (r: seq<T>)
    ensures |r| == |ys| + 1
  {
    if ys == [] || cmp(x, ys[0]) != Greater then [x] + ys
    else [ys[0]] + Insert(x, ys[1..], cmp)
  }

  /** Inserting adds `x` and loses nothing. */
  lemma {:induction false} InsertPermutes<T>(x: T, ys: seq<T>, cmp: (T, T) -> Ordering)
    ensures multiset(Insert(x, ys, cmp)) == multiset(ys) + multiset{x}
  {
    if ys != [] && cmp(x, ys[0]) == Greater {
      InsertPermutes(x, ys[1..], cmp);
      assert ys == [ys[0]] + ys[1..];
    }
  }

  /** Stable insertion sort. */
  function Sort<T>(xs: seq<T>, cmp: (T, T) -> Ordering): (r: seq<T>)
    ensures |r| == |xs|
    ensures multiset(r) == multiset(xs)
  {
    if xs == [] then []
    else
      assert xs == [xs[0]] + xs[1..];
      InsertPermutes(xs[0], Sort(xs[1..], cmp), cmp);
      Insert(xs[0], Sort(xs[1..], cmp), cmp)
  }

  lemma WithinPermutation<T>(xs: seq<T>, ys: seq<T>, dom: set<T>)
    requires multiset(xs) == multiset(ys) && Within(xs, dom)
    ensures Within(ys, dom)
  {
    forall y | y in ys ensures y in dom {
      assert y in multiset(ys);
    }
  }

  lemma {:induction false} InsertSorted<T>(x: T, ys: seq<T>, cmp: (T, T) -> Ordering, dom: set<T>)
    requires PreorderOn(cmp, dom) && x in dom && Within(ys, dom) && SortedBy(ys, cmp)
    ensures SortedBy(Insert(x, ys, cmp), cmp)
  {
    if ys != [] && cmp(x, ys[0]) == Greater {
      assert ys[0] in ys;
      InsertSorted(x, ys[1..], cmp, dom);
      var rest := Insert(x, ys[1..], cmp);
      var r := [ys[0]] + rest;
      forall i | 0 < i < |r| ensures cmp(r[i - 1], r[i]) != Greater {
        if i == 1 {
          InsertHead(x, ys[1..], cmp);
          if rest[0] == x {
            assert cmp(ys[0], x) == Less;
          } else {
            assert rest[0] == ys[1];
          }
        } else {
          assert r[i - 1] == rest[i - 2] && r[i] == rest[i - 1];
        }
      }
    }
  }

  /** The sort yields a permutation in comparator order. */
  lemma {:induction false} SortSorted<T>(xs: seq<T>, cmp: (T, T) -> Ordering, dom: set<T>)
    requires PreorderOn(cmp, dom) && Within(xs, dom)
    ensures SortedBy(Sort(xs, cmp), cmp)
  {
    if xs != [] {
      assert xs[0] in xs;
      SortSorted(xs[1..], cmp, dom);
      WithinPermutation(xs[1..], Sort(xs[1..], cmp), dom);
      InsertSorted(xs[0], Sort(xs[1..], cmp), cmp, dom);
    }
  }

  /** Sorting an already sorted sequence changes nothing. */
  lemma {:induction false} SortOfSorted<T>(xs: seq<T>, cmp: (T, T) -> Ordering)
    requires SortedBy(xs, cmp)
    ensures Sort(xs, cmp) == xs
  {
    if xs != [] {
      assert SortedBy(xs[1..], cmp) by {
        forall i | 0 < i < |xs[1..]| ensures cmp(xs[1..][i - 1], xs[1..][i]) != Greater {
          assert xs[1..][i - 1] == xs[i] && xs[1..][i] == xs[i + 1];
        }
      }
      SortOfSorted(xs[1..], cmp);
      assert Sort(xs, cmp) == Insert(xs[0], xs[1..], cmp);
      if |xs| > 1 {
        assert cmp(xs[0], xs[1..][0]) != Greater;
      }
      assert Insert(xs[0], xs[1..], cmp) == [xs[0]] + xs[1..] == xs;
    }
  }

  /** The elements of `xs` that tie with `k`, in their order in `xs`. */
  function Ties<T>(xs: seq<T>, cmp: (T, T) -> Ordering, k: T): (r: seq<T>)
    ensures forall y :: y in r ==> y in xs && cmp(y, k) == Equal
  {
    if xs == [] then []
    else (if cmp(xs[0], k) == Equal then [xs[0]] else []) + Ties(xs[1..], cmp, k)
  }

  /** The ties of a concatenation are the ties of each part. */
  lemma {:induction false} TiesAppend<T>(a: seq<T>, b: seq<T>, cmp: (T, T) -> Ordering, k: T)
    ensures Ties(a + b, cmp, k) == Ties(a, cmp, k) + Ties(b, cmp, k)
  {
    if a != [] {
      TiesAppend(a[1..], b, cmp, k);
      var head := if cmp(a[0], k) == Equal then [a[0]] else [];
      assert (a + b)[0] == a[0] && (a + b)[1..] == a[1..] + b;
      assert Ties(a + b, cmp, k) == head + Ties(a[1..] + b, cmp, k);
      assert Ties(a, cmp, k) == head + Ties(a[1..], cmp, k);
      assert head + (Ties(a[1..], cmp, k) + Ties(b, cmp, k)) == (head + Ties(a[1..], cmp, k)) + Ties(b, cmp, k);
    } else {
      assert a + b == b;
    }
  }

  /** Inserting `x` puts it ahead of every element it ties with and moves no tied element. */
  lemma {:induction false} InsertTies<T>(x: T, ys: seq<T>, cmp: (T, T) -> Ordering, k: T)
    requires forall y :: y in ys ==> (cmp(x, k) == Equal && cmp(y, k) == Equal ==> cmp(x, y) == Equal)
    ensures Ties(Insert(x, ys, cmp), cmp, k) == (if cmp(x, k) == Equal then [x] else []) + Ties(ys, cmp, k)
  {
    var r := Insert(x, ys, cmp);
    if ys == [] || cmp(x, ys[0]) != Greater {
      assert r == [x] + ys && r[0] == x && r[1..] == ys;
    } else {
      var rest := Insert(x, ys[1..], cmp);
      assert ys[0] in ys;
      assert forall y :: y in ys[1..] ==> y in ys;
      InsertTies(x, ys[1..], cmp, k);
      assert r == [ys[0]] + rest && r[0] == ys[0] && r[1..] == rest;
      assert Ties(r, cmp, k) == (if cmp(ys[0], k) == Equal then [ys[0]] else []) + Ties(rest, cmp, k);
      assert Ties(ys, cmp, k) == (if cmp(ys[0], k) == Equal then [ys[0]] else []) + Ties(ys[1..], cmp, k);
    }
  }

  /** Two elements that tie with the same `k` tie with each other. */
  lemma TiedTie<T>(cmp: (T, T) -> Ordering, dom: set<T>, a: T, b: T, k: T)
    requires PreorderOn(cmp, dom) && a in dom && b in dom && k in dom
    ensures cmp(a, k) == Equal && cmp(b, k) == Equal ==> cmp(a, b) == Equal
  {
    if cmp(a, k) == Equal && cmp(b, k) == Equal {
      assert cmp(k, b) == Equal && cmp(k, a) == Equal;
      assert cmp(a, b) != Greater && cmp(b, a) != Greater;
      assert cmp(a, b) == cmp(b, a).Reverse();
    }
  }

  /**
   * Stability: the elements that tie with any `k` come out of the sort in
   * the order they went in.
   */
  lemma {:induction false} SortStable<T>(xs: seq<T>, cmp: (T, T) -> Ordering, dom: set<T>, k: T)
    requires PreorderOn(cmp, dom) && Within(xs, dom) && k in dom
    ensures Ties(Sort(xs, cmp), cmp, k) == Ties(xs, cmp, k)
  {
    if xs != [] {
      assert xs[0] in xs;
      assert forall y :: y in xs[1..] ==> y in xs;
      SortStable(xs[1..], cmp, dom, k);
      var sorted := Sort(xs[1..], cmp);
      WithinPermutation(xs[1..], sorted, dom);
      forall y | y in sorted ensures cmp(xs[0], k) == Equal && cmp(y, k) == Equal ==> cmp(xs[0], y) == Equal {
        TiedTie(cmp, dom, xs[0], y, k);
      }
      InsertTies(xs[0], sorted, cmp, k);
    }
  }

  /** The insertion sort loop: each element, from the last to the first, is inserted into the sorted suffix. */
  method InsertionSort<T>(xs: seq<T>, cmp: (T, T) -> Ordering) returns (ys: seq<T>)
    ensures ys == Sort(xs, cmp)
  {
    ys := [];
    var i := |xs|;
    while i > 0
      invariant 0 <= i <= |xs|
      invariant ys == Sort(xs[i..], cmp)
    {
      i := i - 1;
      assert xs[i..][1..] == xs[i + 1..];
      ys := InsertLoop(xs[i], ys, cmp);
    }
    assert xs[0..] == xs;
  }

  /** Shift past the elements `x` is greater than, then splice it in. */
  method InsertLoop<T>(x: T, ys: seq<T>, cmp: (T, T) -> Ordering) returns (r: seq<T>)
    ensures r == Insert(x, ys, cmp)
  {
    var j := 0;
    while j < |ys| && cmp(x, ys[j]) == Greater
      invariant 0 <= j <= |ys|
      invariant Insert(x, ys, cmp) == ys[..j] + Insert(x, ys[j..], cmp)
    {
      InsertStep(x, ys, j, cmp);
      j := j + 1;
    }
    assert Insert(x, ys[j..], cmp) == [x] + ys[j..];
    r := ys[..j] + [x] + ys[j..];
  }

  /** One turn of `InsertLoop`: `x` moves past an element it is greater than. */
  lemma InsertStep<T>(x: T, ys: seq<T>, j: nat, cmp: (T, T) -> Ordering)
    requires j < |ys| && cmp(x, ys[j]) == Greater
    requires Insert(x, ys, cmp) == ys[..j] + Insert(x, ys[j..], cmp)
    ensures Insert(x, ys, cmp) == ys[..j + 1] + Insert(x, ys[j + 1..], cmp)
  {
    var tail := ys[j..];
    assert tail[0] == ys[j] && tail[1..] == ys[j + 1..];
    assert Insert(x, tail, cmp) == [ys[j]] + Insert(x, ys[j + 1..], cmp);
    assert ys[..j + 1] == ys[..j] + [ys[j]];
  }

  // ---------------------------------------------------------------------------
  // Successive stable sorts
  // ---------------------------------------------------------------------------

  /** Compare by the first comparator that tells the two apart. */
  function LexCmp<T>(cs: seq<(T, T) -> Ordering>, a: T, b: T): Ordering
  {
    if cs == [] then Equal
    else if cs[0](a, b) != Equal then cs[0](a, b)
    else LexCmp(cs[1..], a, b)
  }

  function Lex<T>(cs: seq<(T, T) -> Ordering>): (T, T) -> Ordering
  {
    (a, b) => LexCmp(cs, a, b)
  }

  /** Sort by the last comparator first and by the first one last, as a list of sort keys is applied. */
  function SortAll<T>(xs: seq<T>, cs: seq<(T, T) -> Ordering>): (r: seq<T>)
    ensures multiset(r) == multiset(xs)
  {
    if cs == [] then xs else Sort(SortAll(xs, cs[1..]), cs[0])
  }

  ghost predicate AllPreorders<T>(cs: seq<(T, T) -> Ordering>, dom: set<T>)
  {
    forall i :: 0 <= i < |cs| ==> PreorderOn(cs[i], dom)
  }

  lemma {:induction false} LexPreorder<T>(cs: seq<(T, T) -> Ordering>, dom: set<T>)
    requires AllPreorders(cs, dom)
    ensures PreorderOn(Lex(cs), dom)
  {
    if cs != [] {
      assert AllPreorders(cs[1..], dom) by {
        forall i | 0 <= i < |cs[1..]| ensures PreorderOn(cs[1..][i], dom) {
          assert cs[1..][i] == cs[i + 1];
        }
      }
      LexPreorder(cs[1..], dom);
      var c1, c2 := cs[0], Lex(cs[1..]);
      assert PreorderOn(c1, dom);
      forall a, b | a in dom && b in dom ensures Lex(cs)(b, a) == Lex(cs)(a, b).Reverse() {
        assert c1(b, a) == c1(a, b).Reverse();
        assert c2(b, a) == c2(a, b).Reverse();
      }
      forall a, b, c | a in dom && b in dom && c in dom && Lex(cs)(a, b) != Greater && Lex(cs)(b, c) != Greater
        ensures Lex(cs)(a, c) != Greater
      {
        assert c1(a, b) != Greater && c1(b, c) != Greater;
        assert c1(a, c) != Greater;
        if c1(a, c) == Equal {
          TiesBetween(c1, dom, a, b, c);
          assert c2(a, b) != Greater && c2(b, c) != Greater;
        }
      }
    }
  }

  /** Between two tied elements, everything in order ties with both. */
  lemma TiesBetween<T>(cmp: (T, T) -> Ordering, dom: set<T>, a: T, b: T, c: T)
    requires PreorderOn(cmp, dom) && a in dom && b in dom && c in dom
    requires cmp(a, b) != Greater && cmp(b, c) != Greater && cmp(a, c) == Equal
    ensures cmp(a, b) == Equal && cmp(b, c) == Equal
  {
    assert cmp(c, a) == Equal;
    assert cmp(c, b) != Greater;
    assert cmp(b, c) == Equal;
    assert cmp(b, a) != Greater;
  }

  /** Two comparators chained: the second decides the ties of the first. */
  lemma LexPair<T>(c1: (T, T) -> Ordering, c2: (T, T) -> Ordering, a: T, b: T)
    ensures Lex([c1, c2])(a, b) == if c1(a, b) != Equal then c1(a, b) else c2(a, b)
  {
    assert [c1, c2][1..] == [c2];
    assert [c2][1..] == [];
    assert LexCmp([c2], a, b) == c2(a, b);
  }

  /** In a sequence sorted by a preorder, every element is not greater than any later one. */
  lemma {:induction false} SortedByGlobal<T>(xs: seq<T>, cmp: (T, T) -> Ordering, dom: set<T>, i: nat, j: nat)
    requires PreorderOn(cmp, dom) && Within(xs, dom) && SortedBy(xs, cmp) && i <= j < |xs|
    ensures cmp(xs[i], xs[j]) != Greater
    decreases j - i
  {
    assert xs[i] in xs && xs[j] in xs;
    if i == j {
      assert cmp(xs[i], xs[i]) == cmp(xs[i], xs[i]).Reverse();
    } else {
      assert xs[j - 1] in xs;
      SortedByGlobal(xs, cmp, dom, i, j - 1);
    }
  }

  /** Stable insertion keeps `x` ahead of the elements it ties with under `c1`, when `c2` already put it first. */
  lemma {:induction false} InsertLex<T>(x: T, zs: seq<T>, c1: (T, T) -> Ordering, c2: (T, T) -> Ordering, dom: set<T>)
    requires PreorderOn(c1, dom) && x in dom && Within(zs, dom)
    requires SortedBy(zs, Lex([c1, c2]))
    requires forall z :: z in zs ==> c2(x, z) != Greater
    ensures SortedBy(Insert(x, zs, c1), Lex([c1, c2]))
  {
    var lex := Lex([c1, c2]);
    forall a, b ensures lex(a, b) == if c1(a, b) != Equal then c1(a, b) else c2(a, b) {
      LexPair(c1, c2, a, b);
    }
    if zs == [] || c1(x, zs[0]) != Greater {
      if zs != [] {
        assert zs[0] in zs;
        assert lex(x, zs[0]) != Greater;
      }
    } else {
      assert forall z :: z in zs[1..] ==> z in zs;
      InsertLex(x, zs[1..], c1, c2, dom);
      var rest := Insert(x, zs[1..], c1);
      var r := [zs[0]] + rest;
      assert SortedBy(zs[1..], lex) by {
        forall i | 0 < i < |zs[1..]| ensures lex(zs[1..][i - 1], zs[1..][i]) != Greater {
          assert zs[1..][i - 1] == zs[i] && zs[1..][i] == zs[i + 1];
        }
      }
      forall i | 0 < i < |r| ensures lex(r[i - 1], r[i]) != Greater {
        if i == 1 {
          InsertHead(x, zs[1..], c1);
          if rest[0] == x {
            assert zs[0] in zs;
            assert c1(zs[0], x) == Less;
          } else {
            assert rest[0] == zs[1];
          }
        } else {
          assert r[i - 1] == rest[i - 2] && r[i] == rest[i - 1];
        }
      }
    }
  }

  lemma InsertHead<T>(x: T, ys: seq<T>, cmp: (T, T) -> Ordering)
    ensures Insert(x, ys, cmp)[0] == x || (ys != [] && Insert(x, ys, cmp)[0] == ys[0])
  {
  }

  /** A stable sort by `c1` of a sequence sorted by `c2` is sorted by `c1`, then `c2`. */
  lemma {:induction false} SortLex<T>(ys: seq<T>, c1: (T, T) -> Ordering, c2: (T, T) -> Ordering, dom: set<T>)
    requires PreorderOn(c1, dom) && PreorderOn(c2, dom) && Within(ys, dom) && SortedBy(ys, c2)
    ensures SortedBy(Sort(ys, c1), Lex([c1, c2]))
  {
    if ys != [] {
      assert ys[0] in ys;
      assert SortedBy(ys[1..], c2) by {
        forall i | 0 < i < |ys[1..]| ensures c2(ys[1..][i - 1], ys[1..][i]) != Greater {
          assert ys[1..][i - 1] == ys[i] && ys[1..][i] == ys[i + 1];
        }
      }
      SortLex(ys[1..], c1, c2, dom);
      var zs := Sort(ys[1..], c1);
      WithinPermutation(ys[1..], zs, dom);
      forall z | z in zs ensures c2(ys[0], z) != Greater {
        assert z in multiset(zs);
        assert z in multiset(ys[1..]);
        var j :| 0 <= j < |ys[1..]| && ys[1..][j] == z;
        SortedByGlobal(ys, c2, dom, 0, j + 1);
      }
      InsertLex(ys[0], zs, c1, c2, dom);
    }
  }

  /**
   * Applying the sort keys from last to first orders lexicographically by the
   * keys, first key first, ties keeping the order the input already had.
   */
  lemma {:induction false} SortAllLex<T>(xs: seq<T>, cs: seq<(T, T) -> Ordering>, base: (T, T) -> Ordering, dom: set<T>)
    requires AllPreorders(cs, dom) && PreorderOn(base, dom) && Within(xs, dom) && SortedBy(xs, base)
    ensures SortedBy(SortAll(xs, cs), Lex(cs + [base]))
  {
    if cs == [] {
      assert cs + [base] == [base];
      forall i | 0 < i < |xs| ensures Lex([base])(xs[i - 1], xs[i]) != Greater {
        assert base(xs[i - 1], xs[i]) != Greater;
        assert [base][1..] == [];
        assert LexCmp([base], xs[i - 1], xs[i]) != Greater;
      }
    } else {
      assert AllPreorders(cs[1..], dom) by {
        forall i | 0 <= i < |cs[1..]| ensures PreorderOn(cs[1..][i], dom) {
          assert cs[1..][i] == cs[i + 1];
        }
      }
      SortAllLex(xs, cs[1..], base, dom);
      var tail := cs[1..] + [base];
      assert AllPreorders(tail, dom) by {
        forall i | 0 <= i < |tail| ensures PreorderOn(tail[i], dom) {
          if i < |cs[1..]| { assert tail[i] == cs[i + 1]; } else { assert tail[i] == base; }
        }
      }
      LexPreorder(tail, dom);
      WithinPermutation(xs, SortAll(xs, cs[1..]), dom);
      SortLex(SortAll(xs, cs[1..]), cs[0], Lex(tail), dom);
      assert (cs + [base])[1..] == tail;
      var s := Sort(SortAll(xs, cs[1..]), cs[0]);
      forall i | 0 < i < |s| ensures Lex(cs + [base])(s[i - 1], s[i]) != Greater {
        LexPair(cs[0], Lex(tail), s[i - 1], s[i]);
        assert (cs + [base])[0] == cs[0];
        assert LexCmp(cs + [base], s[i - 1], s[i]) == Lex([cs[0], Lex(tail)])(s[i - 1], s[i]);
      }
    }
  }
}
