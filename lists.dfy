/** Generic list operations that the stores and pages build on: the array
    `filter`, `map`-where-id-matches, `find`/`findIndex`, a stable sort by an
    integer key (the comparator sorts of the pages) and element moves. */
module Lists {

  datatype Option<T> = None | Some(value: T)

  /** `r` keeps some elements of `s`, in their original order. */
  predicate IsSubsequence<T(==)>(r: seq<T>, s: seq<T>)
    decreases |s|
  {
    if r == [] then true
    else if s == [] then false
    else (r[0] == s[0] && IsSubsequence(r[1..], s[1..])) || IsSubsequence(r, s[1..])
  }

  /** `Array.prototype.filter`: the elements of `s` that satisfy `keep`. */
  function Filter<T(!new)>(s: seq<T>, keep: T -> bool): (r: seq<T>)
    ensures |r| <= |s|
    ensures forall x :: x in r <==> x in s && keep(x)
    ensures forall x :: multiset(r)[x] == if keep(x) then multiset(s)[x] else 0
    ensures IsSubsequence(r, s)
  {
    if s == [] then []
    else
      assert s == [s[0]] + s[1..];
      if keep(s[0]) then [s[0]] + Filter(s[1..], keep) else Filter(s[1..], keep)
  }

  lemma FilterCons<T(!new)>(s: seq<T>, keep: T -> bool)
    requires s != []
    ensures Filter(s, keep) == (if keep(s[0]) then [s[0]] else []) + Filter(s[1..], keep)
  {
  }

  lemma FilterSnoc<T(!new)>(s: seq<T>, x: T, keep: T -> bool)
    ensures Filter(s + [x], keep) == Filter(s, keep) + (if keep(x) then [x] else [])
  {
    FilterAppend(s, [x], keep);
    FilterOne(x, keep);
  }

  lemma FilterOne<T(!new)>(x: T, keep: T -> bool)
    ensures Filter([x], keep) == if keep(x) then [x] else []
  {
    assert [x][1..] == [];
  }

  /** Every element kept by `keep` is kept by `keep'`. */
  lemma {:induction false} FilterStronger<T(!new)>(s: seq<T>, keep: T -> bool, keep': T -> bool)
    requires forall x :: keep(x) ==> keep'(x)
    ensures Filter(Filter(s, keep'), keep) == Filter(s, keep)
  {
    if s != [] {
      FilterStronger(s[1..], keep, keep');
    }
  }

  /** Two filters can be applied in either order. */
  lemma {:induction false} FilterCommutes<T(!new)>(s: seq<T>, p: T -> bool, q: T -> bool)
    ensures Filter(Filter(s, p), q) == Filter(Filter(s, q), p)
  {
    if s != [] {
      FilterCommutes(s[1..], p, q);
      var x, rest := s[0], s[1..];
      FilterCons(s, p);
      FilterCons(s, q);
      if p(x) {
        assert ([x] + Filter(rest, p))[1..] == Filter(rest, p);
        FilterCons([x] + Filter(rest, p), q);
      }
      if q(x) {
        assert ([x] + Filter(rest, q))[1..] == Filter(rest, q);
        FilterCons([x] + Filter(rest, q), p);
      }
    }
  }

  /** The filter keeps everything exactly when every element passes, and nothing exactly when none does. */
  lemma FilterAllOrNone<T(!new)>(s: seq<T>, keep: T -> bool)
    ensures |Filter(s, keep)| == |s| <==> forall i :: 0 <= i < |s| ==> keep(s[i])
    ensures Filter(s, keep) == [] <==> forall i :: 0 <= i < |s| ==> !keep(s[i])
  {
    FilterKeepsAllIff(s, keep);
    FilterDropsAllIff(s, keep);
  }

  lemma {:induction false} FilterKeepsAllIff<T(!new)>(s: seq<T>, keep: T -> bool)
    ensures |Filter(s, keep)| == |s| <==> forall i :: 0 <= i < |s| ==> keep(s[i])
  {
    if s != [] {
      FilterKeepsAllIff(s[1..], keep);
      FilterCons(s, keep);
      if keep(s[0]) {
        AllFromTail(s, keep);
      } else {
        assert |Filter(s, keep)| == |Filter(s[1..], keep)| <= |s[1..]| < |s|;
      }
    }
  }

  /** When the head passes, every element passes exactly when every element of the tail does. */
  lemma AllFromTail<T>(s: seq<T>, keep: T -> bool)
    requires s != [] && keep(s[0])
    ensures (forall i :: 0 <= i < |s| ==> keep(s[i])) <==> (forall i :: 0 <= i < |s[1..]| ==> keep(s[1..][i]))
  {
    assert forall i :: 1 <= i < |s| ==> s[i] == s[1..][i - 1];
  }

  lemma {:induction false} FilterDropsAllIff<T(!new)>(s: seq<T>, keep: T -> bool)
    ensures Filter(s, keep) == [] <==> forall i :: 0 <= i < |s| ==> !keep(s[i])
  {
    if s != [] {
      var tail := s[1..];
      FilterDropsAllIff(tail, keep);
      FilterCons(s, keep);
      assert forall i :: 1 <= i < |s| ==> s[i] == tail[i - 1];
      if keep(s[0]) {
        assert Filter(s, keep)[0] == s[0];
      }
    }
  }

  lemma {:induction false} FilterAppend<T(!new)>(a: seq<T>, b: seq<T>, keep: T -> bool)
    ensures Filter(a + b, keep) == Filter(a, keep) + Filter(b, keep)
  {
    if a == [] {
      assert a + b == b;
    } else {
      assert (a + b)[1..] == a[1..] + b;
      FilterAppend(a[1..], b, keep);
    }
  }

  /** A filter every element passes returns the list itself. */
  lemma {:induction false} FilterKeepsAll<T(!new)>(s: seq<T>, keep: T -> bool)
    requires forall i :: 0 <= i < |s| ==> keep(s[i])
    ensures Filter(s, keep) == s
  {
    if s != [] {
      assert forall i :: 1 <= i < |s| ==> s[1..][i - 1] == s[i];
      FilterKeepsAll(s[1..], keep);
    }
  }

  /** The indices of the elements of `s` that satisfy `keep`. */
  function PassingIndices<T>(s: seq<T>, keep: T -> bool): set<int>
  {
    set i | 0 <= i < |s| && keep(s[i])
  }

  /** The filter keeps one element for each index whose element passes. */
  lemma {:induction false} FilterCount<T(!new)>(s: seq<T>, keep: T -> bool)
    ensures |Filter(s, keep)| == |PassingIndices(s, keep)|
  {
    if s != [] {
      var init, x := s[..|s| - 1], s[|s| - 1];
      assert s == init + [x];
      FilterSnoc(init, x, keep);
      FilterCount(init, keep);
      PassingIndicesSnoc(init, x, keep);
    }
  }

  lemma PassingIndicesSnoc<T>(init: seq<T>, x: T, keep: T -> bool)
    ensures |PassingIndices(init + [x], keep)| == |PassingIndices(init, keep)| + (if keep(x) then 1 else 0)
  {
    var small := PassingIndices(init, keep);
    var extra := if keep(x) then {|init|} else {};
    assert PassingIndices(init + [x], keep) == small + extra by {
      var s := init + [x];
      forall i ensures i in PassingIndices(s, keep) <==> i in small + extra {
        if 0 <= i < |init| {
          assert s[i] == init[i];
        }
      }
    }
    assert |init| !in small;
  }

  /** `s.map(x => hit(x) ? f(x) : x)`: only the elements that `hit` selects change. */
  function MapWhere<T>(s: seq<T>, hit: T -> bool, f: T -> T): (r: seq<T>)
    ensures |r| == |s|
    ensures forall i :: 0 <= i < |s| ==> r[i] == if hit(s[i]) then f(s[i]) else s[i]
    ensures (forall i :: 0 <= i < |s| ==> !hit(s[i])) ==> r == s
  {
    seq(|s|, i requires 0 <= i < |s| => if hit(s[i]) then f(s[i]) else s[i])
  }

  /** `findIndex`, with `None` for -1: the first position whose element satisfies `p`. */
  function FindIndex<T>(s: seq<T>, p: T -> bool): (r: Option<nat>)
    ensures r.Some? ==> r.value < |s| && p(s[r.value]) && forall j :: 0 <= j < r.value ==> !p(s[j])
    ensures r.None? <==> forall j :: 0 <= j < |s| ==> !p(s[j])
  {
    if s == [] then None
    else if p(s[0]) then Some(0)
    else match FindIndex(s[1..], p)
      case None => None
      case Some(k) => Some(k + 1)
  }

  /** `find`: the first element that satisfies `p`. */
  function Find<T>(s: seq<T>, p: T -> bool): (r: Option<T>)
    ensures r.Some? ==> exists j :: 0 <= j < |s| && s[j] == r.value && p(s[j]) &&
                                    forall k :: 0 <= k < j ==> !p(s[k])
    ensures r.None? <==> forall j :: 0 <= j < |s| ==> !p(s[j])
  {
    match FindIndex(s, p)
    case None => None
    case Some(k) => Some(s[k])
  }

  /** `s` is in non-decreasing order of `key`. */
  ghost predicate SortedBy<T>(s: seq<T>, key: T -> int)
  {
    forall i, j :: 0 <= i < j < |s| ==> key(s[i]) <= key(s[j])
  }

  /** Inserts `x` before the first element whose key is not smaller than its own. */
  function InsertBy<T>(x: T, s: seq<T>, key: T -> int): (r: seq<T>)
    ensures multiset(r) == multiset(s) + multiset{x}
    ensures SortedBy(s, key) ==> SortedBy(r, key)
  {
    if s == [] then [x]
    else if key(x) <= key(s[0]) then
      assert s == [s[0]] + s[1..];
      InsertBySmallest(x, s, key);
      [x] + s
    else
      assert s == [s[0]] + s[1..];
      var rest := InsertBy(x, s[1..], key);
      InsertByTail(x, s, key, rest);
      [s[0]] + rest
  }

  lemma InsertBySmallest<T>(x: T, s: seq<T>, key: T -> int)
    requires s != [] && key(x) <= key(s[0])
    ensures SortedBy(s, key) ==> SortedBy([x] + s, key)
  {
    if SortedBy(s, key) {
      SortedCons(x, s, key);
    }
  }

  lemma InsertByTail<T>(x: T, s: seq<T>, key: T -> int, rest: seq<T>)
    requires s != [] && key(s[0]) < key(x)
    requires multiset(rest) == multiset(s[1..]) + multiset{x}
    requires SortedBy(s[1..], key) ==> SortedBy(rest, key)
    ensures SortedBy(s, key) ==> SortedBy([s[0]] + rest, key)
  {
    if SortedBy(s, key) {
      SortedTail(s, key);
      forall k | 0 <= k < |rest| ensures key(s[0]) <= key(rest[k]) {
        assert rest[k] in multiset(rest);
      }
      SortedCons(s[0], rest, key);
    }
  }

  /** The comparator sort `a.sort((a, b) => key(a) - key(b))`, as a stable insertion sort. */
  function SortBy<T>(s: seq<T>, key: T -> int): (r: seq<T>)
    ensures multiset(r) == multiset(s)
    ensures |r| == |s|
    ensures SortedBy(r, key)
  {
    if s == [] then []
    else
      assert s == [s[0]] + s[1..];
      var r := InsertBy(s[0], SortBy(s[1..], key), key);
      assert |r| == |multiset(r)|;
      r
  }

  /** The elements whose key is `v`. */
  function KeyIs<T>(key: T -> int, v: int): T -> bool
  {
    (y: T) => key(y) == v
  }

  /** The elements of `s` whose key is `v`, in order. */
  function TiesOf<T>(s: seq<T>, key: T -> int, v: int): seq<T>
  {
    if s == [] then [] else (if key(s[0]) == v then [s[0]] else []) + TiesOf(s[1..], key, v)
  }

  lemma {:induction false} TiesOfIsFilter<T(!new)>(s: seq<T>, key: T -> int, v: int)
    ensures Filter(s, KeyIs(key, v)) == TiesOf(s, key, v)
  {
    if s != [] {
      TiesOfIsFilter(s[1..], key, v);
      FilterCons(s, KeyIs(key, v));
    }
  }

  /** Inserting `x` puts it ahead of every element with the same key and moves no other element past one. */
  lemma {:induction false} InsertByKeepsTies<T>(x: T, s: seq<T>, key: T -> int, v: int)
    ensures TiesOf(InsertBy(x, s, key), key, v) == (if key(x) == v then [x] else []) + TiesOf(s, key, v)
  {
    if s == [] {
      assert [x][1..] == [];
    } else if key(x) <= key(s[0]) {
      InsertByFront(x, s, key);
      TiesCons(x, s, key, v);
    } else {
      InsertByKeepsTies(x, s[1..], key, v);
      InsertByPast(x, s, key);
      TieShift(x, s[0], InsertBy(x, s[1..], key), s[1..], key, v);
      assert [s[0]] + s[1..] == s;
    }
  }

  /** In front of a head that is not smaller, `x` goes first. */
  lemma InsertByFront<T>(x: T, s: seq<T>, key: T -> int)
    requires s != [] && key(x) <= key(s[0])
    ensures InsertBy(x, s, key) == [x] + s
  {
  }

  /** Past the smaller head, `x` goes into the tail. */
  lemma InsertByPast<T>(x: T, s: seq<T>, key: T -> int)
    requires s != [] && key(s[0]) < key(x)
    ensures InsertBy(x, s, key) == [s[0]] + InsertBy(x, s[1..], key)
  {
  }

  lemma TiesCons<T>(y: T, t: seq<T>, key: T -> int, v: int)
    ensures TiesOf([y] + t, key, v) == (if key(y) == v then [y] else []) + TiesOf(t, key, v)
  {
    assert ([y] + t)[1..] == t;
  }

  /** An element with a smaller key than `x` cannot be one of `x`'s ties, so it does not change its place. */
  lemma TieShift<T>(x: T, y: T, rest: seq<T>, tail: seq<T>, key: T -> int, v: int)
    requires key(y) < key(x)
    requires TiesOf(rest, key, v) == (if key(x) == v then [x] else []) + TiesOf(tail, key, v)
    ensures TiesOf([y] + rest, key, v) == (if key(x) == v then [x] else []) + TiesOf([y] + tail, key, v)
  {
    TiesCons(y, rest, key, v);
    TiesCons(y, tail, key, v);
    if key(x) != v {
      assert TiesOf(rest, key, v) == TiesOf(tail, key, v);
    }
  }

  /** The sort is stable: the elements with any one key come out in their original order. */
  lemma SortByStable<T(!new)>(s: seq<T>, key: T -> int, v: int)
    ensures Filter(SortBy(s, key), KeyIs(key, v)) == Filter(s, KeyIs(key, v))
  {
    SortKeepsTies(s, key, v);
    TiesOfIsFilter(s, key, v);
    TiesOfIsFilter(SortBy(s, key), key, v);
  }

  lemma {:induction false} SortKeepsTies<T>(s: seq<T>, key: T -> int, v: int)
    ensures TiesOf(SortBy(s, key), key, v) == TiesOf(s, key, v)
  {
    if s != [] {
      SortKeepsTies(s[1..], key, v);
      InsertByKeepsTies(s[0], SortBy(s[1..], key), key, v);
    }
  }

  lemma SortedCons<T>(x: T, rest: seq<T>, key: T -> int)
    requires SortedBy(rest, key)
    requires forall k :: 0 <= k < |rest| ==> key(x) <= key(rest[k])
    ensures SortedBy([x] + rest, key)
  {
    var r := [x] + rest;
    forall i, j | 0 <= i < j < |r| ensures key(r[i]) <= key(r[j]) {
      if i == 0 {
        assert r[j] == rest[j - 1];
      } else {
        assert r[i] == rest[i - 1] && r[j] == rest[j - 1];
      }
    }
  }

  lemma SortedTail<T>(s: seq<T>, key: T -> int)
    requires s != [] && SortedBy(s, key)
    ensures SortedBy(s[1..], key)
    ensures forall y :: y in s[1..] ==> key(s[0]) <= key(y)
  {
    forall i, j | 0 <= i < j < |s[1..]| ensures key(s[1..][i]) <= key(s[1..][j]) {
      assert s[1..][i] == s[i + 1] && s[1..][j] == s[j + 1];
    }
    forall y | y in s[1..] ensures key(s[0]) <= key(y) {
      var j :| 0 <= j < |s[1..]| && s[1..][j] == y;
      assert s[j + 1] == y;
    }
  }

  /** A subsequence of a sorted list is sorted. */
  lemma {:induction false} FilterKeepsSorted<T(!new)>(s: seq<T>, keep: T -> bool, key: T -> int)
    requires SortedBy(s, key)
    ensures SortedBy(Filter(s, keep), key)
  {
    if s != [] {
      SortedTail(s, key);
      FilterKeepsSorted(s[1..], keep, key);
      var rest := Filter(s[1..], keep);
      if keep(s[0]) {
        forall k | 0 <= k < |rest| ensures key(s[0]) <= key(rest[k]) {
          assert rest[k] in rest;
        }
        SortedCons(s[0], rest, key);
      }
    }
  }

  /** `s` without the element at position `i`. */
  function RemoveAt<T>(s: seq<T>, i: nat): (r: seq<T>)
    requires i < |s|
    ensures |r| == |s| - 1
    ensures forall k :: 0 <= k < |r| ==> r[k] == if k < i then s[k] else s[k + 1]
  {
    s[..i] + s[i + 1..]
  }

  /** `s` with `x` placed at position `i`, the later elements shifted right. */
  function InsertAt<T>(s: seq<T>, i: nat, x: T): (r: seq<T>)
    requires i <= |s|
    ensures |r| == |s| + 1 && r[i] == x
    ensures forall k :: 0 <= k < |r| && k != i ==> r[k] == if k < i then s[k] else s[k - 1]
  {
    s[..i] + [x] + s[i..]
  }

  lemma {:induction false} RemoveInsertAt<T>(s: seq<T>, i: nat, x: T)
    requires i <= |s|
    ensures RemoveAt(InsertAt(s, i, x), i) == s
  {
    var t := RemoveAt(InsertAt(s, i, x), i);
    assert |t| == |s|;
    forall k | 0 <= k < |s| ensures t[k] == s[k] { }
  }

  lemma {:induction false} InsertAtMultiset<T>(s: seq<T>, i: nat, x: T)
    requires i <= |s|
    ensures multiset(InsertAt(s, i, x)) == multiset(s) + multiset{x}
  {
    assert s == s[..i] + s[i..];
    assert InsertAt(s, i, x) == s[..i] + ([x] + s[i..]);
  }

  lemma {:induction false} RemoveAtMultiset<T>(s: seq<T>, i: nat)
    requires i < |s|
    ensures multiset(RemoveAt(s, i)) + multiset{s[i]} == multiset(s)
  {
    assert s == s[..i] + ([s[i]] + s[i + 1..]);
  }

  lemma {:induction false} InsertRemoveAt<T>(s: seq<T>, i: nat)
    requires i < |s|
    ensures InsertAt(RemoveAt(s, i), i, s[i]) == s
  {
    var t := InsertAt(RemoveAt(s, i), i, s[i]);
    assert |t| == |s|;
    forall k | 0 <= k < |s| ensures t[k] == s[k] { }
  }
}
