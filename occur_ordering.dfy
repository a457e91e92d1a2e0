/** `tools/occur_ordering.py`: read `max_var` from the `p` header, give every
    variable a weighted occurrence count over the lines after the header, and
    list the variables 1..max_var by descending count, ties in ascending id. */
module OccurOrdering {
  import opened Wrappers
  import opened Common
  import opened Sorting

  /** The weight a line gives each of its literals and those literals: the
      bound for a `k` line, 1 for a standard clause, nothing for a skipped line. */
  function Contribution(k: LineKind): (int, seq<int>)
  {
    match k
    case Card(b, ls) => (b, ls)
    case Plain(ls) => (1, ls)
    case _ => (0, [])
  }

  /** What one line adds to the count of variable `v`: its weight once per
      literal of `v`, either sign. */
  function LineWeight(line: seq<Token>, v: int): int
  {
    var (b, ls) := Contribution(ClassifyLine(line));
    b * CountVar(ls, v)
  }

  /** `var_occ_cnt[v]` after the counting loop over `body`. */
  function Weight(body: seq<seq<Token>>, v: int): int
  {
    if body == [] then 0 else Weight(body[..|body| - 1], v) + LineWeight(body[|body| - 1], v)
  }

  /** A line the counting loop gets through: `int()` accepts its numbers and
      every literal indexes the table of `size` entries. */
  predicate LineOk(line: seq<Token>, size: nat)
  {
    var k := ClassifyLine(line);
    !k.Malformed? && forall l :: l in Contribution(k).1 ==> Abs(l) < size
  }

  /** `[0] * (max_var + 1)` has this many entries. */
  function TableSize(maxVar: int): nat { if maxVar + 1 > 0 then maxVar + 1 else 0 }

  /** `int(tokens[2])` of the header line. */
  function HeaderVar(header: seq<Token>): Option<int>
  {
    if |header| >= 3 && header[2].Num? then Some(header[2].value) else None
  }

  /** The header loop stops at line `h`: the first line that is a `p` line,
      with no empty line before it. */
  ghost predicate FirstHeader(lines: seq<seq<Token>>, h: int)
  {
    0 <= h < |lines| && IsHeader(lines[h]) && forall j :: 0 <= j < h ==> lines[j] != [] && !IsHeader(lines[j])
  }

  /** `a` is printed before `b`: a higher count, or the same count and a smaller id. */
  ghost predicate Before(body: seq<seq<Token>>, a: int, b: int)
  {
    Weight(body, a) > Weight(body, b) || (Weight(body, a) == Weight(body, b) && a < b)
  }

  /** `order` is the printed ordering for `body` and `max_var`: the variables
      1..max_var, each once, every variable before the ones after it. */
  ghost predicate OccurOrder(body: seq<seq<Token>>, maxVar: int, order: seq<int>)
  {
    multiset(order) == multiset(Range1(maxVar))
    && forall i, j :: 0 <= i < j < |order| ==> Before(body, order[i], order[j])
  }

  datatype OccurError =
    | HeaderFault(e: HeaderError)  // `tokens[0]` of an empty line, or `max_var` left at None
    | ShortHeader                  // `tokens[2]` raises IndexError
    | BadMaxVar                    // `int(tokens[2])` raises ValueError
    | BadLine(line: nat)           // `int()` or `tokens[1]` raises on this line
    | OutOfRange(line: nat)        // `var_occ_cnt[abs(l)]` raises IndexError on this line

  /** `var_occ_cnt[abs(l)] += bound` for every literal `l` of one line. */
  method AddLine(cnt: array<int>, ls: seq<int>, b: int) returns (ok: bool)
    modifies cnt
    ensures ok <==> forall l :: l in ls ==> Abs(l) < cnt.Length
    ensures ok ==> forall v :: 0 <= v < cnt.Length ==> cnt[v] == old(cnt[v]) + b * CountVar(ls, v)
  {
    var j := 0;
    while j < |ls|
      invariant 0 <= j <= |ls|
      invariant forall l :: l in ls[..j] ==> Abs(l) < cnt.Length
      invariant forall v :: 0 <= v < cnt.Length ==> cnt[v] == old(cnt[v]) + b * CountVar(ls[..j], v)
    {
      var x := Abs(ls[j]);
      if x >= cnt.Length {
        return false;
      }
      assert ls[..j + 1][..j] == ls[..j];
      forall v | 0 <= v < cnt.Length
        ensures b * CountVar(ls[..j + 1], v) == b * CountVar(ls[..j], v) + (if x == v then b else 0)
      {
        var c := CountVar(ls[..j], v);
        assert CountVar(ls[..j + 1], v) == c + (if x == v then 1 else 0);
        assert b * (c + 1) == b * c + b;
      }
      cnt[x] := cnt[x] + b;
      j := j + 1;
    }
    assert ls[..j] == ls;
    return true;
  }

  /** The counting loop over the lines after the header, on a fresh table of
      `size` zeros; `offset` is the index of `body[0]` in the file. */
  method CountOccurrences(body: seq<seq<Token>>, size: nat, offset: nat) returns (r: Result<seq<int>, OccurError>)
    ensures r.Ok? <==> forall i :: 0 <= i < |body| ==> LineOk(body[i], size)
    ensures r.Ok? ==> |r.value| == size && forall v :: 0 <= v < size ==> r.value[v] == Weight(body, v)
    ensures r.Err? ==>
      exists i :: 0 <= i < |body| && !LineOk(body[i], size)
        && (forall j :: 0 <= j < i ==> LineOk(body[j], size))
        && (r.error == BadLine(offset + i) || r.error == OutOfRange(offset + i))
        && (r.error.BadLine? <==> ClassifyLine(body[i]).Malformed?)
  {
    var cnt := new int[size](_ => 0);
    var i := 0;
    while i < |body|
      invariant 0 <= i <= |body|
      invariant forall k :: 0 <= k < i ==> LineOk(body[k], size)
      invariant forall v :: 0 <= v < size ==> cnt[v] == Weight(body[..i], v)
    {
      assert body[..i + 1][..i] == body[..i];
      var k := ClassifyLine(body[i]);
      if k.Malformed? {
        return Err(BadLine(offset + i));
      }
      var (b, ls) := Contribution(k);
      var ok := AddLine(cnt, ls, b);
      if !ok {
        return Err(OutOfRange(offset + i));
      }
      i := i + 1;
    }
    assert body[..i] == body;
    return Ok(cnt[..]);
  }

  /** `ps = list(zip(range(1, max_var + 1), var_occ_cnt[1:]))` followed by
      `ps.sort(key=lambda x: x[1], reverse=True)`, which keeps equal counts in
      their original (ascending) order; the ids of `ps`, as printed. */
  method SortByCount(cnt: seq<int>, maxVar: int) returns (order: seq<int>)
    requires |cnt| == TableSize(maxVar)
    ensures multiset(order) == multiset(Range1(maxVar))
    ensures forall i :: 0 <= i < |order| ==> 1 <= order[i] <= maxVar
    ensures forall i, j :: 0 <= i < j < |order| ==>
      cnt[order[i]] > cnt[order[j]] || (cnt[order[i]] == cnt[order[j]] && order[i] < order[j])
  {
    var n := if maxVar > 0 then maxVar else 0;
    var ps := new int[n](i => i + 1);
    assert ps[..] == Range1(maxVar);
    var key := v => if 0 <= v < |cnt| then -cnt[v] else 0;
    StableSortInPlace(ps, key);
    order := ps[..];
    ByCount(cnt, maxVar, key);
  }

  /** Sorting 1..max_var by a key that is minus the count. */
  lemma ByCount(cnt: seq<int>, maxVar: int, key: int -> int)
    requires |cnt| == TableSize(maxVar)
    requires forall v :: 0 <= v < |cnt| ==> key(v) == -cnt[v]
    ensures var order := StableSort(Range1(maxVar), key);
      && multiset(order) == multiset(Range1(maxVar))
      && (forall i :: 0 <= i < |order| ==> 1 <= order[i] <= maxVar)
      && forall i, j :: 0 <= i < j < |order| ==>
        cnt[order[i]] > cnt[order[j]] || (cnt[order[i]] == cnt[order[j]] && order[i] < order[j])
  {
    var order := StableSort(Range1(maxVar), key);
    StableSortPermutation(Range1(maxVar), key);
    StableSortOfIncreasing(Range1(maxVar), key);
    forall i | 0 <= i < |order| ensures 1 <= order[i] <= maxVar {
      InSeqMultiset(order, order[i]);
      InSeqMultiset(Range1(maxVar), order[i]);
    }
  }

  /** `generate_occ_ordering`: the ordering it prints, or the exception that
      stops it first. */
  method OccurOrderingOf(lines: seq<seq<Token>>) returns (r: Result<seq<int>, OccurError>)
    ensures (forall j :: 0 <= j < |lines| ==> lines[j] != [] && !IsHeader(lines[j])) ==> r == Err(HeaderFault(NoHeader))
    ensures r.Ok? ==> exists h :: FirstHeader(lines, h)
    ensures forall h :: FirstHeader(lines, h) ==>
      (r.Ok? <==>
        HeaderVar(lines[h]).Some? && forall i :: h < i < |lines| ==> LineOk(lines[i], TableSize(HeaderVar(lines[h]).value)))
    ensures forall h :: FirstHeader(lines, h) && r.Ok? ==>
      OccurOrder(lines[h + 1..], HeaderVar(lines[h]).value, r.value)
    ensures forall h :: FirstHeader(lines, h) ==>
      (r == Err(ShortHeader) <==> |lines[h]| < 3) && (r == Err(BadMaxVar) <==> |lines[h]| >= 3 && !lines[h][2].Num?)
  {
    var hr := FindHeader(lines);
    if hr.Err? {
      forall h | 0 <= h < |lines| ensures !FirstHeader(lines, h) {
        if hr.error.EmptyLineBeforeHeader? && h > hr.error.line {
          assert lines[hr.error.line] == [];
        }
      }
      return Err(HeaderFault(hr.error));
    }
    var h := hr.value;
    assert FirstHeader(lines, h);
    forall h' | 0 <= h' < |lines| && h' != h ensures !FirstHeader(lines, h') {
      if h < h' { assert IsHeader(lines[h]); }
    }
    var header := lines[h];
    if |header| < 3 {
      return Err(ShortHeader);
    }
    if !header[2].Num? {
      return Err(BadMaxVar);
    }
    var maxVar := header[2].value;
    var body := lines[h + 1..];
    var cr := CountOccurrences(body, TableSize(maxVar), h + 1);
    if cr.Err? {
      ghost var i :| 0 <= i < |body| && !LineOk(body[i], TableSize(maxVar));
      assert body[i] == lines[h + 1 + i];
      return Err(cr.error);
    }
    forall i | h < i < |lines| ensures LineOk(lines[i], TableSize(maxVar)) {
      assert lines[i] == body[i - h - 1];
    }
    var order := SortByCount(cr.value, maxVar);
    forall i | 0 <= i < |order| ensures 0 <= order[i] < TableSize(maxVar) {
      InSeqMultiset(order, order[i]);
      InSeqMultiset(Range1(maxVar), order[i]);
    }
    return Ok(order);
  }

  /** Two orderings that both satisfy `OccurOrder` are the same list: the
      specification leaves the printed ordering no freedom. */
  lemma OccurOrderUnique(body: seq<seq<Token>>, maxVar: int, s: seq<int>, t: seq<int>)
    requires OccurOrder(body, maxVar, s) && OccurOrder(body, maxVar, t)
    ensures s == t
  {
    var lt := (a, b) => Before(body, a, b);
    assert forall a, b :: lt(a, b) ==> !lt(b, a);
    ChainUnique(lt, s, t);
  }

  /** `s` is ordered by `lt`: every element comes before every later one. */
  ghost predicate Chain(lt: (int, int) -> bool, s: seq<int>)
  {
    forall i, j :: 0 <= i < j < |s| ==> lt(s[i], s[j])
  }

  /** Two lists with the same elements, each ordered by the same asymmetric
      relation, are equal. */
  lemma {:induction false} ChainUnique(lt: (int, int) -> bool, s: seq<int>, t: seq<int>)
    requires forall a, b :: lt(a, b) ==> !lt(b, a)
    requires multiset(s) == multiset(t)
    requires Chain(lt, s) && Chain(lt, t)
    ensures s == t
  {
    assert |s| == |multiset(s)| == |multiset(t)| == |t|;
    if s != [] {
      ChainHead(lt, s, t);
      ChainTail(lt, s);
      ChainTail(lt, t);
      TailMultiset(s, t);
      ChainUnique(lt, s[1..], t[1..]);
      assert s == [s[0]] + s[1..] && t == [t[0]] + t[1..];
    }
  }

  /** The tail of an ordered list is ordered. */
  lemma ChainTail(lt: (int, int) -> bool, s: seq<int>)
    requires s != [] && Chain(lt, s)
    ensures Chain(lt, s[1..])
  {
    forall i, j | 0 <= i < j < |s| - 1 ensures lt(s[1..][i], s[1..][j]) {
      assert s[1..][i] == s[i + 1] && s[1..][j] == s[j + 1];
    }
  }

  /** Lists with the same elements and the same head have tails with the same elements. */
  lemma TailMultiset(s: seq<int>, t: seq<int>)
    requires s != [] && t != [] && s[0] == t[0] && multiset(s) == multiset(t)
    ensures multiset(s[1..]) == multiset(t[1..])
  {
    assert s == [s[0]] + s[1..] && t == [t[0]] + t[1..];
    assert multiset(s[1..]) == multiset(s) - multiset{s[0]};
    assert multiset(t[1..]) == multiset(t) - multiset{t[0]};
  }

  /** Such lists start with the same element: the first of either list comes
      before every other element of both. */
  lemma ChainHead(lt: (int, int) -> bool, s: seq<int>, t: seq<int>)
    requires forall a, b :: lt(a, b) ==> !lt(b, a)
    requires multiset(s) == multiset(t) && s != [] && t != []
    requires Chain(lt, s) && Chain(lt, t)
    ensures s[0] == t[0]
  {
    InSeqMultiset(t, s[0]);
    InSeqMultiset(s, t[0]);
    var k :| 0 <= k < |t| && t[k] == s[0];
    var m :| 0 <= m < |s| && s[m] == t[0];
    assert k == 0 || m == 0;
  }

  /** Under `max_var` 3 the example lines give variable 2 the count 3 and
      variables 1 and 3 the count 2 each, so the ordering is 2 1 3. */
  lemma OccurExample()
    ensures OccurOrder(ExampleBody(), 3, [2, 1, 3])
  {
    assert Range1(3) == [1, 2, 3];
    assert multiset([2, 1, 3]) == multiset([1, 2, 3]);
    ExampleOrdered();
  }

  lemma ExampleOrdered()
    ensures forall i, j :: 0 <= i < j < 3 ==> Before(ExampleBody(), [2, 1, 3][i], [2, 1, 3][j])
  {
    var body := ExampleBody();
    var order := [2, 1, 3];
    ExampleWeights();
    assert Before(body, 2, 1) && Before(body, 2, 3) && Before(body, 1, 3);
    forall i, j | 0 <= i < j < 3 ensures Before(body, order[i], order[j]) {
      assert (i == 0 && (j == 1 || j == 2)) || (i == 1 && j == 2);
    }
  }

  lemma ExampleWeights()
    ensures Weight(ExampleBody(), 1) == 2 && Weight(ExampleBody(), 2) == 3 && Weight(ExampleBody(), 3) == 2
  {
    var body := ExampleBody();
    ExampleLineWeights();
    assert body[..1][..0] == [] && body[..2][..1] == body[..1] && body[..2] == body[..|body| - 1];
    assert Weight(body[..1], 1) == 2 && Weight(body[..1], 2) == 2 && Weight(body[..1], 3) == 0;
    assert Weight(body[..2], 1) == 2 && Weight(body[..2], 2) == 3 && Weight(body[..2], 3) == 1;
  }

  /** What each example line adds to the counts of variables 1, 2 and 3. */
  lemma ExampleLineWeights()
    ensures LineWeight(ExampleBody()[0], 1) == 2 && LineWeight(ExampleBody()[0], 2) == 2 && LineWeight(ExampleBody()[0], 3) == 0
    ensures LineWeight(ExampleBody()[1], 1) == 0 && LineWeight(ExampleBody()[1], 2) == 1 && LineWeight(ExampleBody()[1], 3) == 1
    ensures LineWeight(ExampleBody()[2], 1) == 0 && LineWeight(ExampleBody()[2], 2) == 0 && LineWeight(ExampleBody()[2], 3) == 1
  {
    var body := ExampleBody();
    assert ClassifyLine(body[0]) == Card(2, [1, 2]) by {
      assert |body[0]| == 5 && body[0][2] == Num(1) && body[0][3] == Num(2);
      assert Middle(body[0]) == body[0][2..4] == [Num(1), Num(2)];
      assert Values([Num(1), Num(2)]) == [1, 2];
    }
    assert ClassifyLine(body[1]) == Plain([3, -2]) by {
      assert DropLast(body[1]) == [Num(3), Num(-2)];
      assert Values([Num(3), Num(-2)]) == [3, -2];
    }
    assert ClassifyLine(body[2]) == Plain([-3]) by {
      assert DropLast(body[2]) == [Num(-3)];
      assert Values([Num(-3)]) == [-3];
    }
    assert [1, 2][..1] == [1] && [3, -2][..1] == [3] && [-3][..0] == [] && [1][..0] == [] && [3][..0] == [];
  }

  /** The lines `k 2 1 2 0`, `3 -2 0` and `-3 0`. */
  function ExampleBody(): seq<seq<Token>>
  {
    [[Word("k"), Num(2), Num(1), Num(2), Num(0)], [Num(3), Num(-2), Num(0)], [Num(-3), Num(0)]]
  }
}
