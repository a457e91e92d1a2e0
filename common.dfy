/** What the tools share: the tokens of a formula line, literal helpers,
    occurrence counting, and the search for the `p` header line. */
module Common {
  import opened Wrappers

  /** One whitespace-separated token of a line. `Num` is a token that Python's
      `int()` accepts; `Word` is any other token (`p`, `k`, `c`, ...). */
  datatype Token = Num(value: int) | Word(text: string)

  function Abs(x: int): nat { if x < 0 then -x else x }

  /** Number of occurrences of `x` in `s`. */
  function Count(s: seq<int>, x: int): nat
  {
    if s == [] then 0 else Count(s[..|s| - 1], x) + (if s[|s| - 1] == x then 1 else 0)
  }

  /** Number of literals of `s` whose variable (absolute value) is `v`. */
  function CountVar(s: seq<int>, v: int): nat
  {
    if s == [] then 0 else CountVar(s[..|s| - 1], v) + (if Abs(s[|s| - 1]) == v then 1 else 0)
  }

  lemma {:induction false} CountVarSplit(s: seq<int>, v: nat)
    ensures CountVar(s, v) == Count(s, v) + (if v == 0 then 0 else Count(s, -(v as int)))
  {
    if s != [] {
      CountVarSplit(s[..|s| - 1], v);
    }
  }

  lemma CountAppend(a: seq<int>, b: seq<int>, x: int)
    ensures Count(a + b, x) == Count(a, x) + Count(b, x)
  {
    if b != [] {
      assert (a + b)[..|a + b| - 1] == a + b[..|b| - 1];
      CountAppend(a, b[..|b| - 1], x);
    } else {
      assert a + b == a;
    }
  }

  lemma CountPositive(s: seq<int>, x: int)
    ensures Count(s, x) > 0 <==> x in s
  {
    if s != [] {
      CountPositive(s[..|s| - 1], x);
      assert s == s[..|s| - 1] + [s[|s| - 1]];
    }
  }

  /** `n` copies of `x` (`[x] * n`, `range(abs(n))` copies, a zero-filled vector tail). */
  function Repeat<T>(x: T, n: nat): (r: seq<T>)
    ensures |r| == n && forall i :: 0 <= i < n ==> r[i] == x
  {
    if n == 0 then [] else Repeat(x, n - 1) + [x]
  }

  /** Concatenation of a sequence of lines, first line first. */
  function Flatten<T>(ls: seq<seq<T>>): seq<T>
  {
    if ls == [] then [] else Flatten(ls[..|ls| - 1]) + ls[|ls| - 1]
  }

  lemma {:induction false} FlattenConcat<T>(a: seq<seq<T>>, b: seq<seq<T>>)
    ensures Flatten(a + b) == Flatten(a) + Flatten(b)
  {
    if b == [] {
      assert a + b == a;
    } else {
      var b' := b[..|b| - 1];
      assert (a + b)[..|a + b| - 1] == a + b' && (a + b)[|a + b| - 1] == b[|b| - 1];
      FlattenConcat(a, b');
      assert Flatten(a + b) == Flatten(a + b') + b[|b| - 1];
      assert Flatten(b) == Flatten(b') + b[|b| - 1];
    }
  }

  /** Token `k` of line `i` sits at position |Flatten(lines[..i])| + k of the concatenation. */
  lemma FlattenAt<T>(lines: seq<seq<T>>, i: nat, k: nat)
    requires i < |lines| && k < |lines[i]|
    ensures var p := |Flatten(lines[..i])| + k;
      p < |Flatten(lines)| && Flatten(lines)[..p] == Flatten(lines[..i]) + lines[i][..k] && Flatten(lines)[p] == lines[i][k]
  {
    assert lines == lines[..i] + ([lines[i]] + lines[i + 1..]);
    FlattenConcat(lines[..i], [lines[i]] + lines[i + 1..]);
    FlattenConcat([lines[i]], lines[i + 1..]);
    assert Flatten([lines[i]]) == lines[i] by {
      assert [lines[i]][..0] == [];
    }
  }

  lemma FlattenStep<T>(lines: seq<seq<T>>, i: nat)
    requires i < |lines|
    ensures Flatten(lines[..i + 1]) == Flatten(lines[..i]) + lines[i]
  {
    assert lines[..i + 1][..i] == lines[..i];
  }

  /** The largest absolute value of a literal in the clauses (0 for none). */
  function MaxAbs(cls: seq<seq<int>>): (m: nat)
    ensures forall c, l :: c in cls && l in c ==> Abs(l) <= m
    ensures cls != [] && [] !in cls ==> exists c, l :: c in cls && l in c && Abs(l) == m
  {
    if cls == [] then 0 else
      var pre := cls[..|cls| - 1];
      var m0 := MaxAbs(pre);
      var m1 := MaxAbsLits(cls[|cls| - 1]);
      assert forall c :: c in cls ==> c in pre || c == cls[|cls| - 1];
      assert forall c :: c in pre ==> c in cls;
      if m0 >= m1 then
        assert [] !in cls ==> pre != [] ==> [] !in pre;
        assert [] !in cls && pre == [] ==> m0 == 0 && cls[|cls| - 1] in cls;
        m0
      else
        assert cls[|cls| - 1] in cls;
        m1
  }

  /** The largest absolute value of a literal of `c` (0 for the empty clause). */
  function MaxAbsLits(c: seq<int>): (m: nat)
    ensures forall l :: l in c ==> Abs(l) <= m
    ensures c != [] ==> exists l :: l in c && Abs(l) == m
  {
    if c == [] then 0 else
      var m0 := MaxAbsLits(c[..|c| - 1]);
      assert forall l :: l in c ==> l in c[..|c| - 1] || l == c[|c| - 1];
      if m0 >= Abs(c[|c| - 1]) then m0 else Abs(c[|c| - 1])
  }

  /** Every token reads as an integer. */
  predicate AllNum(ts: seq<Token>) { forall i :: 0 <= i < |ts| ==> ts[i].Num? }

  /** The integers of an all-numeric token list (`[int(t) for t in ts]`). */
  function Values(ts: seq<Token>): (r: seq<int>)
    requires AllNum(ts)
    ensures |r| == |ts|
  {
    seq(|ts|, i requires 0 <= i < |ts| => ts[i].value)
  }

  /** The tokens of a list of integers, as `str(lit)` writes them; reading
      them back gives the integers. */
  function Nums(s: seq<int>): (r: seq<Token>)
    ensures |r| == |s| && AllNum(r) && Values(r) == s
  {
    seq(|s|, i requires 0 <= i < |s| => Num(s[i]))
  }

  /** Python's `tokens[:-1]`: every token but the last (the `0` terminator, unchecked). */
  function DropLast<T>(ts: seq<T>): seq<T> { if |ts| >= 1 then ts[..|ts| - 1] else [] }

  /** Python's `tokens[2:-1]`: the literals of a `k bound lits 0` line. */
  function Middle<T>(ts: seq<T>): seq<T> { if |ts| >= 3 then ts[2..|ts| - 1] else [] }

  /** Python's `range(n)` as a list: 0, 1, ..., n - 1 (empty when n <= 0). */
  function Identity(n: int): (r: seq<int>)
    ensures |r| == (if n > 0 then n else 0) && forall i :: 0 <= i < |r| ==> r[i] == i
  {
    seq(if n > 0 then n else 0, i => i)
  }

  /** Python's `list(range(1, n + 1))`. */
  function Range1(n: int): (r: seq<int>)
    ensures |r| == (if n > 0 then n else 0) && forall i :: 0 <= i < |r| ==> r[i] == i + 1
  {
    seq(if n > 0 then n else 0, i => i + 1)
  }

  datatype HeaderError = EmptyLineBeforeHeader(line: nat) | NoHeader

  /** A line that starts with the token `p`. */
  predicate IsHeader(line: seq<Token>) { line != [] && line[0] == Word("p") }

  /** The loop `for line in lines: tokens = line.split(); if tokens[0] == "p": ... break`
      of the ordering scripts: the index of the first `p` line. An empty line before it
      makes `tokens[0]` raise, and a file without one leaves `max_var` at None. */
  method FindHeader(lines: seq<seq<Token>>) returns (r: Result<nat, HeaderError>)
    ensures r.Ok? ==> r.value < |lines| && IsHeader(lines[r.value])
    ensures r.Ok? ==> forall j :: 0 <= j < r.value ==> lines[j] != [] && !IsHeader(lines[j])
    ensures r == Err(NoHeader) <==> forall j :: 0 <= j < |lines| ==> lines[j] != [] && !IsHeader(lines[j])
    ensures r.Err? && r.error.EmptyLineBeforeHeader? ==>
      var e := r.error.line;
      e < |lines| && lines[e] == [] && forall j :: 0 <= j < e ==> lines[j] != [] && !IsHeader(lines[j])
  {
    var i := 0;
    while i < |lines|
      invariant 0 <= i <= |lines|
      invariant forall j :: 0 <= j < i ==> lines[j] != [] && !IsHeader(lines[j])
    {
      if lines[i] == [] {
        return Err(EmptyLineBeforeHeader(i));
      }
      if lines[i][0] == Word("p") {
        return Ok(i);
      }
      i := i + 1;
    }
    return Err(NoHeader);
  }

  /** One formula line as `parse_knf` and `occur_ordering` read it. */
  datatype LineKind =
    | Skipped                            // empty, `p ...` or `c ...`
    | Card(bound: int, lits: seq<int>)   // `k bound l1 ... ln 0`
    | Plain(lits: seq<int>)              // `l1 ... ln 0`
    | Malformed                          // `int()` raises ValueError or `tokens[1]` IndexError

  /** The literals of a `k` line (`tokens[2:-1]`) are converted before its bound
      (`tokens[1]`); the last token of a line is dropped unchecked. */
  function ClassifyLine(line: seq<Token>): LineKind
  {
    if line == [] || line[0] == Word("p") || line[0] == Word("c") then Skipped
    else if line[0] == Word("k") then
      if !AllNum(Middle(line)) || |line| < 2 || !line[1].Num? then Malformed
      else Card(line[1].value, Values(Middle(line)))
    else if AllNum(DropLast(line)) then Plain(Values(DropLast(line)))
    else Malformed
  }

  /** A `(bound, literals)` pair of `parse_knf`; a standard clause has bound 1. */
  datatype Klause = Klause(bound: int, lits: seq<int>)

  /** All elements different. */
  predicate Distinct(s: seq<int>) { forall i, j :: 0 <= i < j < |s| ==> s[i] != s[j] }

  lemma {:induction false} DistinctCount(s: seq<int>, x: int)
    requires Distinct(s)
    ensures multiset(s)[x] <= 1
  {
    if s != [] {
      var s' := s[..|s| - 1];
      assert Distinct(s') by {
        forall i, j | 0 <= i < j < |s'| ensures s'[i] != s'[j] {
          assert s'[i] == s[i] && s'[j] == s[j];
        }
      }
      DistinctCount(s', x);
      assert s == s' + [s[|s| - 1]];
      if s[|s| - 1] == x {
        assert x !in s' by {
          forall i | 0 <= i < |s'| ensures s'[i] != x {
            assert s'[i] == s[i];
          }
        }
      }
    }
  }

  lemma RepeatCount(s: seq<int>, i: nat, j: nat)
    requires i < j < |s| && s[i] == s[j]
    ensures multiset(s)[s[i]] >= 2
  {
    assert s == s[..i] + [s[i]] + s[i + 1..j] + [s[j]] + s[j + 1..];
  }

  /** A permutation of a sequence without repetitions has none either. */
  lemma DistinctPermutation(s: seq<int>, t: seq<int>)
    requires Distinct(s) && multiset(s) == multiset(t)
    ensures Distinct(t)
  {
    forall i, j | 0 <= i < j < |t| ensures t[i] != t[j] {
      if t[i] == t[j] {
        RepeatCount(t, i, j);
        DistinctCount(s, t[i]);
      }
    }
  }
}
