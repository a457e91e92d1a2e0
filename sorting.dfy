/** The sorts the tools rely on: Python's stable `sorted`/`list.sort` by a key,
    and Python's lexicographic ordering of integer lists. */
module Sorting {

  /** Place `x` after every trailing element whose key is <= key(x):
      one step of a stable insertion sort. */
  function Insert(t: seq<int>, x: int, key: int -> int): (r: seq<int>)
    ensures |r| == |t| + 1
  {
    if t == [] then [x]
    else if key(t[|t| - 1]) <= key(x) then t + [x]
    else Insert(t[..|t| - 1], x, key) + [t[|t| - 1]]
  }

  lemma {:induction false} InsertPermutation(t: seq<int>, x: int, key: int -> int)
    ensures multiset(Insert(t, x, key)) == multiset(t) + multiset{x}
  {
    if t != [] && key(t[|t| - 1]) > key(x) {
      InsertPermutation(t[..|t| - 1], x, key);
      assert t == t[..|t| - 1] + [t[|t| - 1]];
    }
  }

  /** Python's `sorted(s, key=key)`: ascending by key, and stable. A descending
      sort (`reverse=True`) is this sort on the negated key. */
  function StableSort(s: seq<int>, key: int -> int): (r: seq<int>)
    ensures |r| == |s|
  {
    if s == [] then []
    else Insert(StableSort(s[..|s| - 1], key), s[|s| - 1], key)
  }

  /** `[sorted(g, key=key) for g in groups]`. */
  function SortAll(groups: seq<seq<int>>, key: int -> int): (r: seq<seq<int>>)
    ensures |r| == |groups|
    ensures forall i :: 0 <= i < |groups| ==> r[i] == StableSort(groups[i], key)
  {
    if groups == [] then [] else SortAll(groups[..|groups| - 1], key) + [StableSort(groups[|groups| - 1], key)]
  }

  /** StableSort rearranges its input: the result is a permutation. */
  lemma {:induction false} StableSortPermutation(s: seq<int>, key: int -> int)
    ensures multiset(StableSort(s, key)) == multiset(s)
  {
    if s != [] {
      StableSortPermutation(s[..|s| - 1], key);
      InsertPermutation(StableSort(s[..|s| - 1], key), s[|s| - 1], key);
      assert s == s[..|s| - 1] + [s[|s| - 1]];
    }
  }

  ghost predicate SortedBy(s: seq<int>, key: int -> int)
  {
    forall i, j :: 0 <= i < j < |s| ==> key(s[i]) <= key(s[j])
  }

  /** The elements of `s` whose key is `k`, in their order in `s`. */
  function KeyClass(s: seq<int>, key: int -> int, k: int): seq<int>
  {
    if s == [] then []
    else KeyClass(s[..|s| - 1], key, k) + (if key(s[|s| - 1]) == k then [s[|s| - 1]] else [])
  }

  lemma InSeqMultiset(s: seq<int>, y: int)
    ensures y in s <==> y in multiset(s)
  {}

  /** Appending an element whose key is at least every key of `u` keeps `u` ordered. */
  lemma SortedAppend(u: seq<int>, last: int, key: int -> int)
    requires SortedBy(u, key)
    requires forall y :: y in u ==> key(y) <= key(last)
    ensures SortedBy(u + [last], key)
  {
    var r := u + [last];
    forall i, j | 0 <= i < j < |r| ensures key(r[i]) <= key(r[j]) {
      if j == |u| {
        assert r[i] == u[i] && r[j] == last;
        assert u[i] in u;
      } else {
        assert r[i] == u[i] && r[j] == u[j];
      }
    }
  }

  lemma {:induction false} InsertSorted(t: seq<int>, x: int, key: int -> int)
    requires SortedBy(t, key)
    ensures SortedBy(Insert(t, x, key), key)
  {
    if t == [] {
    } else if key(t[|t| - 1]) <= key(x) {
      forall y | y in t ensures key(y) <= key(x) {
        var i :| 0 <= i < |t| && t[i] == y;
        if i < |t| - 1 {
          assert key(t[i]) <= key(t[|t| - 1]);
        }
      }
      SortedAppend(t, x, key);
    } else {
      var t', last := t[..|t| - 1], t[|t| - 1];
      assert SortedBy(t', key) by {
        forall i, j | 0 <= i < j < |t'| ensures key(t'[i]) <= key(t'[j]) {
          assert t'[i] == t[i] && t'[j] == t[j];
        }
      }
      InsertSorted(t', x, key);
      var u := Insert(t', x, key);
      InsertPermutation(t', x, key);
      forall y | y in u ensures key(y) <= key(last) {
        InSeqMultiset(u, y);
        InSeqMultiset(t', y);
        if y != x {
          var i :| 0 <= i < |t'| && t'[i] == y;
          assert t[i] == y;
        }
      }
      SortedAppend(u, last, key);
    }
  }

  /** The result of StableSort is ordered by key. */
  lemma {:induction false} StableSortSorted(s: seq<int>, key: int -> int)
    ensures SortedBy(StableSort(s, key), key)
  {
    if s != [] {
      StableSortSorted(s[..|s| - 1], key);
      InsertSorted(StableSort(s[..|s| - 1], key), s[|s| - 1], key);
    }
  }

  lemma {:induction false} KeyClassInsert(t: seq<int>, x: int, key: int -> int, k: int)
    ensures KeyClass(Insert(t, x, key), key, k) == KeyClass(t, key, k) + (if key(x) == k then [x] else [])
  {
    if t == [] {
      assert KeyClass([x], key, k) == KeyClass([], key, k) + (if key(x) == k then [x] else []) by {
        assert [x][..0] == [];
      }
    } else if key(t[|t| - 1]) <= key(x) {
      assert (t + [x])[..|t|] == t;
    } else {
      var t', last := t[..|t| - 1], t[|t| - 1];
      KeyClassInsert(t', x, key, k);
      var u := Insert(t', x, key);
      assert (u + [last])[..|u|] == u;
    }
  }

  /** Stability: elements with equal keys keep their relative order. */
  lemma {:induction false} StableSortStable(s: seq<int>, key: int -> int, k: int)
    ensures KeyClass(StableSort(s, key), key, k) == KeyClass(s, key, k)
  {
    if s != [] {
      StableSortStable(s[..|s| - 1], key, k);
      KeyClassInsert(StableSort(s[..|s| - 1], key), s[|s| - 1], key, k);
    }
  }

  /** A sequence already ordered by key is left unchanged, so sorting twice
      is the same as sorting once. */
  lemma {:induction false} StableSortOfSorted(s: seq<int>, key: int -> int)
    requires SortedBy(s, key)
    ensures StableSort(s, key) == s
  {
    if s != [] {
      var s' := s[..|s| - 1];
      assert SortedBy(s', key) by {
        forall i, j | 0 <= i < j < |s'| ensures key(s'[i]) <= key(s'[j]) {
          assert s'[i] == s[i] && s'[j] == s[j];
        }
      }
      StableSortOfSorted(s', key);
      if s' != [] {
        assert key(s'[|s'| - 1]) <= key(s[|s| - 1]);
      }
      assert s' + [s[|s| - 1]] == s;
    }
  }

  lemma StableSortIdempotent(s: seq<int>, key: int -> int)
    ensures StableSort(StableSort(s, key), key) == StableSort(s, key)
  {
    StableSortSorted(s, key);
    StableSortOfSorted(StableSort(s, key), key);
  }

  ghost predicate StrictlyIncreasing(s: seq<int>)
  {
    forall i, j :: 0 <= i < j < |s| ==> s[i] < s[j]
  }

  /** Ordered by key, and by the element itself among equal keys. */
  ghost predicate TieOrdered(s: seq<int>, key: int -> int)
  {
    forall i, j :: 0 <= i < j < |s| ==> key(s[i]) < key(s[j]) || (key(s[i]) == key(s[j]) && s[i] < s[j])
  }

  lemma TieOrderedPrefix(t: seq<int>, key: int -> int)
    requires TieOrdered(t, key) && t != []
    ensures TieOrdered(t[..|t| - 1], key)
  {
    var t' := t[..|t| - 1];
    forall i, j | 0 <= i < j < |t'|
      ensures key(t'[i]) < key(t'[j]) || (key(t'[i]) == key(t'[j]) && t'[i] < t'[j])
    {
      assert t'[i] == t[i] && t'[j] == t[j];
    }
  }

  /** Appending `last` keeps the order when `last` comes after every element of `u`. */
  lemma TieOrderedAppend(u: seq<int>, last: int, key: int -> int)
    requires TieOrdered(u, key)
    requires forall y :: y in u ==> key(y) < key(last) || (key(y) == key(last) && y < last)
    ensures TieOrdered(u + [last], key)
  {
    var r := u + [last];
    forall i, j | 0 <= i < j < |r|
      ensures key(r[i]) < key(r[j]) || (key(r[i]) == key(r[j]) && r[i] < r[j])
    {
      if j == |u| {
        assert r[i] in u;
      } else {
        assert r[i] == u[i] && r[j] == u[j];
      }
    }
  }

  lemma {:induction false} InsertTieOrdered(t: seq<int>, x: int, key: int -> int)
    requires TieOrdered(t, key)
    requires forall y :: y in t ==> y < x
    ensures TieOrdered(Insert(t, x, key), key)
  {
    if t == [] {
    } else if key(t[|t| - 1]) <= key(x) {
      forall y | y in t ensures key(y) < key(x) || (key(y) == key(x) && y < x) {
        var i :| 0 <= i < |t| && t[i] == y;
        if i < |t| - 1 {
          assert key(t[i]) <= key(t[|t| - 1]);
        }
      }
      TieOrderedAppend(t, x, key);
    } else {
      var t', last := t[..|t| - 1], t[|t| - 1];
      TieOrderedPrefix(t, key);
      assert forall y :: y in t' ==> y in t;
      InsertTieOrdered(t', x, key);
      var u := Insert(t', x, key);
      InsertPermutation(t', x, key);
      forall y | y in u ensures key(y) < key(last) || (key(y) == key(last) && y < last) {
        InSeqMultiset(u, y);
        InSeqMultiset(t', y);
        if y != x {
          var i :| 0 <= i < |t'| && t'[i] == y;
          assert t[i] == y;
        }
      }
      TieOrderedAppend(u, last, key);
    }
  }

  /** Sorting strictly increasing ids with a stable sort orders them by key,
      and by ascending id among equal keys. */
  lemma {:induction false} StableSortOfIncreasing(s: seq<int>, key: int -> int)
    requires StrictlyIncreasing(s)
    ensures TieOrdered(StableSort(s, key), key)
  {
    if s != [] {
      var s' := s[..|s| - 1];
      assert StrictlyIncreasing(s') by {
        forall i, j | 0 <= i < j < |s'| ensures s'[i] < s'[j] {
          assert s'[i] == s[i] && s'[j] == s[j];
        }
      }
      StableSortOfIncreasing(s', key);
      var t := StableSort(s', key);
      StableSortPermutation(s', key);
      forall y | y in t ensures y < s[|s| - 1] {
        InSeqMultiset(t, y);
        InSeqMultiset(s', y);
      }
      InsertTieOrdered(t, s[|s| - 1], key);
    }
  }

  /** Python's `list.sort(key=key)` on an array, in place: insertion sort that
      shifts every larger-keyed element one place to the right. */
  method StableSortInPlace(a: array<int>, key: int -> int)
    modifies a
    ensures a[..] == StableSort(old(a[..]), key)
  {
    ghost var s := a[..];
    var i := 0;
    while i < a.Length
      invariant 0 <= i <= a.Length
      invariant a[..i] == StableSort(s[..i], key)
      invariant a[i..] == s[i..]
    {
      assert a[i] == s[i];
      InsertAt(a, i, key);
      StableSortStep(s, i, key);
      i := i + 1;
    }
    assert s[..a.Length] == s;
  }

  lemma StableSortStep(s: seq<int>, i: nat, key: int -> int)
    requires i < |s|
    ensures StableSort(s[..i + 1], key) == Insert(StableSort(s[..i], key), s[i], key)
  {
    assert s[..i + 1][..i] == s[..i];
  }

  /** One pass of StableSortInPlace: `a[i]` moves left past every element of
      `a[..i]` with a strictly larger key. */
  method InsertAt(a: array<int>, i: nat, key: int -> int)
    requires i < a.Length
    modifies a
    ensures a[..i + 1] == Insert(old(a[..i]), old(a[i]), key)
    ensures a[i + 1..] == old(a[i + 1..])
  {
    var x := a[i];
    ghost var t := a[..i];
    var j := i;
    while j > 0 && key(a[j - 1]) > key(x)
      invariant 0 <= j <= i
      invariant forall k :: 0 <= k < j ==> a[k] == t[k]
      invariant forall k :: j < k <= i ==> a[k] == t[k - 1]
      invariant forall k :: i < k < a.Length ==> a[k] == old(a[k])
      invariant forall k :: j <= k < i ==> key(t[k]) > key(x)
    {
      a[j] := a[j - 1];
      j := j - 1;
    }
    a[j] := x;
    InsertSplit(t, j, x, key);
    ghost var want := t[..j] + [x] + t[j..];
    assert |want| == i + 1;
    forall k | 0 <= k <= i ensures a[..i + 1][k] == want[k] {
      if k < j {
        assert want[k] == t[k];
      } else if k > j {
        assert want[k] == t[k - 1];
      }
    }
    assert a[..i + 1] == want;
    assert a[i + 1..] == old(a[i + 1..]);
  }

  /** Insert puts `x` right after the last element whose key is <= key(x). */
  lemma {:induction false} InsertSplit(t: seq<int>, j: nat, x: int, key: int -> int)
    requires j <= |t| && (j == 0 || key(t[j - 1]) <= key(x))
    requires forall k :: j <= k < |t| ==> key(t[k]) > key(x)
    ensures Insert(t, x, key) == t[..j] + [x] + t[j..]
    decreases |t|
  {
    if j < |t| {
      var t', last := t[..|t| - 1], t[|t| - 1];
      assert key(last) > key(x);
      assert Insert(t, x, key) == Insert(t', x, key) + [last];
      assert t'[..j] == t[..j];
      InsertSplit(t', j, x, key);
      assert t[j..] == t'[j..] + [last];
      calc {
        Insert(t, x, key);
        t'[..j] + [x] + t'[j..] + [last];
        t[..j] + [x] + (t'[j..] + [last]);
      }
    } else {
      assert t[..j] == t && t[j..] == [];
    }
  }

  /** Python's comparison `a <= b` of two integer lists (lexicographic). */
  predicate LexLe(a: seq<int>, b: seq<int>)
    decreases |a|
  {
    a == [] || (b != [] && (a[0] < b[0] || (a[0] == b[0] && LexLe(a[1..], b[1..]))))
  }

  lemma {:induction false} LexTotal(a: seq<int>, b: seq<int>)
    ensures LexLe(a, b) || LexLe(b, a)
    decreases |a|
  {
    if a != [] && b != [] && a[0] == b[0] {
      LexTotal(a[1..], b[1..]);
    }
  }

  lemma {:induction false} LexTrans(a: seq<int>, b: seq<int>, c: seq<int>)
    requires LexLe(a, b) && LexLe(b, c)
    ensures LexLe(a, c)
    decreases |a|
  {
    if a != [] && b != [] && c != [] && a[0] == b[0] && b[0] == c[0] {
      LexTrans(a[1..], b[1..], c[1..]);
    }
  }

  lemma {:induction false} LexAntisym(a: seq<int>, b: seq<int>)
    requires LexLe(a, b) && LexLe(b, a)
    ensures a == b
    decreases |a|
  {
    if a != [] && b != [] {
      LexAntisym(a[1..], b[1..]);
      assert a == [a[0]] + a[1..] && b == [b[0]] + b[1..];
    }
  }

  ghost predicate LexSorted(s: seq<seq<int>>)
  {
    forall i, j :: 0 <= i < j < |s| ==> LexLe(s[i], s[j])
  }

  function LexInsert(t: seq<seq<int>>, x: seq<int>): (r: seq<seq<int>>)
    ensures |r| == |t| + 1
  {
    if t == [] then [x]
    else if LexLe(t[|t| - 1], x) then t + [x]
    else LexInsert(t[..|t| - 1], x) + [t[|t| - 1]]
  }

  lemma {:induction false} LexInsertPermutation(t: seq<seq<int>>, x: seq<int>)
    ensures multiset(LexInsert(t, x)) == multiset(t) + multiset{x}
  {
    if t != [] && !LexLe(t[|t| - 1], x) {
      LexInsertPermutation(t[..|t| - 1], x);
      assert t == t[..|t| - 1] + [t[|t| - 1]];
    }
  }

  /** Python's `sorted(groups)` on a list of integer lists. */
  function LexSort(s: seq<seq<int>>): (r: seq<seq<int>>)
    ensures |r| == |s|
  {
    if s == [] then []
    else LexInsert(LexSort(s[..|s| - 1]), s[|s| - 1])
  }

  /** LexSort rearranges its input: the result is a permutation. */
  lemma {:induction false} LexSortPermutation(s: seq<seq<int>>)
    ensures multiset(LexSort(s)) == multiset(s)
  {
    if s != [] {
      LexSortPermutation(s[..|s| - 1]);
      LexInsertPermutation(LexSort(s[..|s| - 1]), s[|s| - 1]);
      assert s == s[..|s| - 1] + [s[|s| - 1]];
    }
  }

  lemma {:induction false} LexInsertSorted(t: seq<seq<int>>, x: seq<int>)
    requires LexSorted(t)
    ensures LexSorted(LexInsert(t, x))
  {
    if t != [] && !LexLe(t[|t| - 1], x) {
      var t', last := t[..|t| - 1], t[|t| - 1];
      LexTotal(last, x);
      LexInsertSorted(t', x);
      LexInsertPermutation(t', x);
      var u := LexInsert(t', x);
      forall y | y in u ensures LexLe(y, last) {
        assert y in multiset(u);
        if y != x {
          assert y in multiset(t');
          var i :| 0 <= i < |t'| && t'[i] == y;
          assert t[i] == y;
        }
      }
      var r := u + [last];
      forall i, j | 0 <= i < j < |r| ensures LexLe(r[i], r[j]) {
        if j == |u| {
          assert r[i] in u;
        }
      }
    } else if t != [] {
      var r := t + [x];
      forall i, j | 0 <= i < j < |r| ensures LexLe(r[i], r[j]) {
        if j == |t| && i < |t| - 1 {
          LexTrans(t[i], t[|t| - 1], x);
        }
      }
    }
  }

  /** The result of LexSort is in lexicographic order. */
  lemma {:induction false} LexSortSorted(s: seq<seq<int>>)
    ensures LexSorted(LexSort(s))
  {
    if s != [] {
      LexSortSorted(s[..|s| - 1]);
      LexInsertSorted(LexSort(s[..|s| - 1]), s[|s| - 1]);
    }
  }
}
