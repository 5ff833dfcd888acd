/**
 * The two `Array.prototype` operations the store relies on: `find`, which
 * returns the first element satisfying a predicate, and `sort` with a
 * comparator of the form `(a, b) => key(b) - key(a)`, which since ES2019 is
 * required to be stable. Sorting is modelled by a stable insertion sort and
 * shown to be the only stable ordering by descending key, so it agrees with
 * any conforming engine.
 */
module JsArray {
  import opened Wrappers

  /** The index `array.find(p)` stops at, or none. */
  function FindIndex<T>(s: seq<T>, p: T -> bool): (r: Option<nat>)
    ensures r.Some? ==> r.value < |s| && p(s[r.value])
    ensures r.Some? ==> forall j :: 0 <= j < r.value ==> !p(s[j])
    ensures r.None? ==> forall j :: 0 <= j < |s| ==> !p(s[j])
  {
    if s == [] then None
    else if p(s[0]) then Some(0)
    else
      match FindIndex(s[1..], p)
      case None => None
      case Some(i) => Some(i + 1)
  }

  /** `array.find(p)`: the first element satisfying `p`, or `undefined`. */
  function Find<T>(s: seq<T>, p: T -> bool): (r: Option<T>)
    ensures r.None? <==> forall j :: 0 <= j < |s| ==> !p(s[j])
    ensures r.Some? ==> exists i :: 0 <= i < |s| && s[i] == r.value && p(s[i]) && forall j :: 0 <= j < i ==> !p(s[j])
  {
    match FindIndex(s, p)
    case None => None
    case Some(i) => Some(s[i])
  }

  /** Ordered by `key`, largest first (ties in any order). */
  ghost predicate SortedDesc<T>(s: seq<T>, key: T -> int) {
    forall i, j :: 0 <= i < j < |s| ==> key(s[i]) >= key(s[j])
  }

  /** The elements of `s` whose key is `k`, in their order in `s`. */
  function Run<T>(s: seq<T>, key: T -> int, k: int): seq<T> {
    if s == [] then [] else (if key(s[0]) == k then [s[0]] else []) + Run(s[1..], key, k)
  }

  /** A stable sort keeps, for every key, the run of elements with that key unchanged. */
  ghost predicate SameRuns<T>(a: seq<T>, b: seq<T>, key: T -> int) {
    forall k :: Run(a, key, k) == Run(b, key, k)
  }

  /** Places `x` after every element whose key is at least its own. */
  function Insert<T>(s: seq<T>, x: T, key: T -> int): (r: seq<T>)
    ensures multiset(r) == multiset(s) + multiset{x}
  {
    if s == [] then [x]
    else if key(s[0]) >= key(x) then
      assert s == [s[0]] + s[1..];
      [s[0]] + Insert(s[1..], x, key)
    else [x] + s
  }

  lemma {:induction false} InsertSorted<T>(s: seq<T>, x: T, key: T -> int)
    requires SortedDesc(s, key)
    ensures SortedDesc(Insert(s, x, key), key)
  {
    if s != [] && key(s[0]) >= key(x) {
      var rest := Insert(s[1..], x, key);
      InsertSorted(s[1..], x, key);
      forall i | 0 <= i < |rest| ensures key(rest[i]) <= key(s[0]) {
        assert rest[i] in multiset(rest);
        assert rest[i] in multiset(s[1..]) || rest[i] == x;
      }
    }
  }

  /** The stable sort by descending key: each element, in order, is inserted after its equals. */
  function SortDesc<T>(s: seq<T>, key: T -> int): (r: seq<T>)
    ensures SortedDesc(r, key)
    ensures multiset(r) == multiset(s)
  {
    if s == [] then []
    else
      var init := s[..|s| - 1];
      assert s == init + [s[|s| - 1]];
      InsertSorted(SortDesc(init, key), s[|s| - 1], key);
      Insert(SortDesc(init, key), s[|s| - 1], key)
  }

  lemma {:induction false} RunAppend<T>(a: seq<T>, b: seq<T>, key: T -> int, k: int)
    ensures Run(a + b, key, k) == Run(a, key, k) + Run(b, key, k)
  {
    if a == [] {
      assert a + b == b;
    } else {
      assert (a + b)[0] == a[0] && (a + b)[1..] == a[1..] + b;
      RunAppend(a[1..], b, key, k);
      var f := if key(a[0]) == k then [a[0]] else [];
      assert Run(a + b, key, k) == f + Run(a[1..] + b, key, k);
      assert Run(a, key, k) == f + Run(a[1..], key, k);
      AppendAssoc(f, Run(a[1..], key, k), Run(b, key, k));
    }
  }

  lemma {:induction false} RunOfSmallerKeys<T>(s: seq<T>, key: T -> int, k: int)
    requires forall i :: 0 <= i < |s| ==> key(s[i]) < k
    ensures Run(s, key, k) == []
  {
    if s != [] {
      RunOfSmallerKeys(s[1..], key, k);
    }
  }

  lemma {:induction false} InsertRun<T>(s: seq<T>, x: T, key: T -> int, k: int)
    requires SortedDesc(s, key)
    ensures Run(Insert(s, x, key), key, k) == Run(s, key, k) + (if key(x) == k then [x] else [])
  {
    if s == [] {
      assert Insert(s, x, key) == [x];
      assert Run([x], key, k) == (if key(x) == k then [x] else []) + Run([x][1..], key, k);
    } else if key(s[0]) >= key(x) {
      assert SortedDesc(s[1..], key);
      InsertRun(s[1..], x, key, k);
      InsertRunPast(s, x, key, k);
    } else {
      InsertRunFront(s, x, key, k);
    }
  }

  /** Inserting past the head: the head's contribution comes first. */
  lemma InsertRunPast<T>(s: seq<T>, x: T, key: T -> int, k: int)
    requires s != [] && key(s[0]) >= key(x)
    requires Run(Insert(s[1..], x, key), key, k) == Run(s[1..], key, k) + (if key(x) == k then [x] else [])
    ensures Run(Insert(s, x, key), key, k) == Run(s, key, k) + (if key(x) == k then [x] else [])
  {
    var fx := if key(x) == k then [x] else [];
    var f0 := if key(s[0]) == k then [s[0]] else [];
    var rest := Insert(s[1..], x, key);
    var r := [s[0]] + rest;
    assert Insert(s, x, key) == r;
    assert r[0] == s[0] && r[1..] == rest;
    assert Run(r, key, k) == f0 + Run(rest, key, k);
    assert Run(s, key, k) == f0 + Run(s[1..], key, k);
    AppendAssoc(f0, Run(s[1..], key, k), fx);
  }

  lemma AppendAssoc<T>(a: seq<T>, b: seq<T>, c: seq<T>)
    ensures a + (b + c) == (a + b) + c
  {
  }

  /** Inserting at the front of a sorted sequence whose keys are all smaller. */
  lemma InsertRunFront<T>(s: seq<T>, x: T, key: T -> int, k: int)
    requires SortedDesc(s, key)
    requires s != [] && key(s[0]) < key(x)
    ensures Run(Insert(s, x, key), key, k) == Run(s, key, k) + (if key(x) == k then [x] else [])
  {
    var fx := if key(x) == k then [x] else [];
    var r := [x] + s;
    assert Insert(s, x, key) == r;
    assert r[0] == x && r[1..] == s;
    assert Run(r, key, k) == fx + Run(s, key, k);
    if key(x) == k {
      forall i | 0 <= i < |s| ensures key(s[i]) < k {
        assert key(s[0]) >= key(s[i]) || i == 0;
      }
      RunOfSmallerKeys(s, key, k);
      assert fx + [] == [] + fx;
    } else {
      assert [] + Run(s, key, k) == Run(s, key, k) + [];
    }
  }

  /** Sorting is stable: for every key, elements with that key keep their input order. */
  lemma {:induction false} SortDescStable<T>(s: seq<T>, key: T -> int)
    ensures SameRuns(SortDesc(s, key), s, key)
  {
    if s != [] {
      var init, last := s[..|s| - 1], s[|s| - 1];
      assert s == init + [last];
      SortDescStable(init, key);
      forall k ensures Run(SortDesc(s, key), key, k) == Run(s, key, k) {
        InsertRun(SortDesc(init, key), last, key, k);
        RunAppend(init, [last], key, k);
      }
    }
  }

  /**
   * There is only one stable ordering by descending key: two permutations of
   * each other that are both sorted and keep the same runs are equal.
   */
  lemma {:induction false} StableSortUnique<T>(a: seq<T>, b: seq<T>, key: T -> int)
    requires SortedDesc(a, key) && SortedDesc(b, key)
    requires multiset(a) == multiset(b)
    requires SameRuns(a, b, key)
    ensures a == b
  {
    if a == [] {
      assert |b| == |multiset(b)| == 0;
    } else {
      assert |b| == |multiset(b)| == |multiset(a)| == |a|;
      SortedHeadsAgree(a, b, key);
      assert a == [a[0]] + a[1..] && b == [b[0]] + b[1..];
      assert multiset(a) == multiset{a[0]} + multiset(a[1..]);
      assert multiset(b) == multiset{b[0]} + multiset(b[1..]);
      assert multiset(a[1..]) == multiset(a) - multiset{a[0]};
      assert multiset(b[1..]) == multiset(b) - multiset{b[0]};
      forall k ensures Run(a[1..], key, k) == Run(b[1..], key, k) {
        var f := if key(a[0]) == k then [a[0]] else [];
        assert Run(a, key, k) == f + Run(a[1..], key, k);
        assert Run(b, key, k) == f + Run(b[1..], key, k);
        assert Run(a, key, k) == Run(b, key, k);
        assert Run(a[1..], key, k) == (f + Run(a[1..], key, k))[|f|..];
      }
      SortedTail(a, key);
      SortedTail(b, key);
      StableSortUnique(a[1..], b[1..], key);
    }
  }

  lemma SortedTail<T>(s: seq<T>, key: T -> int)
    requires SortedDesc(s, key) && s != []
    ensures SortedDesc(s[1..], key)
  {
    forall i, j | 0 <= i < j < |s| - 1 ensures key(s[1..][i]) >= key(s[1..][j]) {
      assert s[1..][i] == s[i + 1] && s[1..][j] == s[j + 1];
    }
  }

  /** Two sorted, stable orderings of the same elements start with the same element. */
  lemma SortedHeadsAgree<T>(a: seq<T>, b: seq<T>, key: T -> int)
    requires SortedDesc(a, key) && SortedDesc(b, key)
    requires multiset(a) == multiset(b) && a != [] && b != []
    requires SameRuns(a, b, key)
    ensures a[0] == b[0]
  {
    assert b[0] in multiset(a) && a[0] in multiset(b);
    var ka := key(a[0]);
    assert key(b[0]) == ka by {
      var i :| 0 <= i < |a| && a[i] == b[0];
      var j :| 0 <= j < |b| && b[j] == a[0];
      assert key(a[0]) >= key(a[i]);
      assert key(b[0]) >= key(b[j]);
    }
    assert Run(a, key, ka) == [a[0]] + Run(a[1..], key, ka);
    assert Run(b, key, ka) == [b[0]] + Run(b[1..], key, ka);
    assert Run(a, key, ka) == Run(b, key, ka);
    assert a[0] == Run(a, key, ka)[0] == Run(b, key, ka)[0] == b[0];
  }
}
