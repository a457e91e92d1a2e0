/** Ranking literals by a variable map (tools/order_and_encode.py): the
    rank-based stable sort, reading an ordering file into a rank map, and the
    renaming of the constrained ("soft") variables. */
module LiteralOrder {
  import opened Wrappers
  import opened Common
  import opened Sorting

  /** `trim`: drop every trailing carriage return and newline. */
  method Trim(s: string) returns (r: string)
    ensures |r| <= |s| && r == s[..|r|]
    ensures r == [] || (r[|r| - 1] != '\r' && r[|r| - 1] != '\n')
    ensures forall i :: |r| <= i < |s| ==> s[i] == '\r' || s[i] == '\n'
  {
    r := s;
    while |r| > 0 && (r[|r| - 1] == '\r' || r[|r| - 1] == '\n')
      invariant |r| <= |s| && r == s[..|r|]
      invariant forall i :: |r| <= i < |s| ==> s[i] == '\r' || s[i] == '\n'
    {
      r := r[..|r| - 1];
    }
  }

  /** The rank `var_map[abs(l)]` of a literal (0 where the map has no entry). */
  function Rank(varMap: seq<int>): int -> int
  {
    l => if Abs(l) < |varMap| then varMap[Abs(l)] else 0
  }

  /** Every literal has an entry in the map. */
  predicate Ranked(lits: seq<int>, varMap: seq<int>)
  {
    forall i :: 0 <= i < |lits| ==> Abs(lits[i]) < |varMap|
  }

  /** `sort_literals`. Python's sort compares with `<` only, and through
      `cmp_to_key(compare_map)` `a < b` holds exactly when
      var_map[|a|] < var_map[|b|], so this is the stable sort by rank. With two
      or more literals every literal takes part in a comparison, so one without
      a map entry raises IndexError (None); a single literal is never compared. */
  function SortLiterals(lits: seq<int>, varMap: seq<int>): Option<seq<int>>
  {
    if |lits| >= 2 && !Ranked(lits, varMap) then None
    else Some(StableSort(lits, Rank(varMap)))
  }

  lemma RankedPermutation(s: seq<int>, t: seq<int>, varMap: seq<int>)
    requires multiset(s) == multiset(t) && Ranked(t, varMap)
    ensures Ranked(s, varMap)
  {
    forall i | 0 <= i < |s| ensures Abs(s[i]) < |varMap| {
      assert s[i] in multiset(t);
      var j :| 0 <= j < |t| && t[j] == s[i];
    }
  }

  /** With every literal ranked, the result is a permutation of the input whose
      ranks never decrease. */
  lemma SortLiteralsSorted(lits: seq<int>, varMap: seq<int>)
    requires Ranked(lits, varMap)
    ensures SortLiterals(lits, varMap).Some?
    ensures var r := SortLiterals(lits, varMap).value;
      multiset(r) == multiset(lits) && Ranked(r, varMap) &&
      forall i, j :: 0 <= i < j < |r| ==> varMap[Abs(r[i])] <= varMap[Abs(r[j])]
  {
    var r := StableSort(lits, Rank(varMap));
    StableSortPermutation(lits, Rank(varMap));
    StableSortSorted(lits, Rank(varMap));
    RankedPermutation(r, lits, varMap);
    forall i, j | 0 <= i < j < |r| ensures varMap[Abs(r[i])] <= varMap[Abs(r[j])] {
      assert Rank(varMap)(r[i]) <= Rank(varMap)(r[j]);
    }
  }

  /** A successful sort keeps exactly the literals it was given. */
  lemma SortLiteralsMembers(lits: seq<int>, varMap: seq<int>)
    requires SortLiterals(lits, varMap).Some?
    ensures var r := SortLiterals(lits, varMap).value;
      |r| == |lits| && (forall i :: 0 <= i < |r| ==> r[i] in lits) && (forall i :: 0 <= i < |lits| ==> lits[i] in r)
  {
    var r := StableSort(lits, Rank(varMap));
    StableSortPermutation(lits, Rank(varMap));
    forall i | 0 <= i < |r| ensures r[i] in lits {
      assert r[i] in multiset(r);
    }
    forall i | 0 <= i < |lits| ensures lits[i] in r {
      assert lits[i] in multiset(lits);
    }
  }

  /** Stability: literals of equal rank keep their input order (only a strictly
      smaller rank makes `compare_map` answer -1). */
  lemma SortLiteralsStable(lits: seq<int>, varMap: seq<int>, k: int)
    requires SortLiterals(lits, varMap).Some?
    ensures KeyClass(SortLiterals(lits, varMap).value, Rank(varMap), k) == KeyClass(lits, Rank(varMap), k)
  {
    StableSortStable(lits, Rank(varMap), k);
  }

  /** Literals already in rank order are returned unchanged, so sorting twice
      gives the result of sorting once. */
  lemma SortLiteralsIdempotent(lits: seq<int>, varMap: seq<int>)
    requires SortLiterals(lits, varMap).Some?
    ensures SortLiterals(SortLiterals(lits, varMap).value, varMap) == SortLiterals(lits, varMap)
  {
    var r := StableSort(lits, Rank(varMap));
    StableSortIdempotent(lits, Rank(varMap));
    StableSortPermutation(lits, Rank(varMap));
    if |lits| >= 2 {
      RankedPermutation(r, lits, varMap);
    }
  }

  /** The example in the comment of `sort_literals`: with 1 -> 3, 2 -> 2, 3 -> 1 the
      literals [1, 2, 3] come out as [3, 2, 1]. */
  lemma SortLiteralsExample()
    ensures SortLiterals([1, 2, 3], [0, 3, 2, 1]) == Some([3, 2, 1])
  {
    var key := Rank([0, 3, 2, 1]);
    assert [1, 2, 3][..2] == [1, 2] && [1, 2][..1] == [1];
    assert StableSort([1], key) == [1] by {
      assert [1][..0] == [];
    }
    assert [1][..0] == [];
    assert Insert([1], 2, key) == [2, 1];
    assert StableSort([1, 2], key) == [2, 1];
    assert [2, 1][..1] == [2];
    assert [2][..0] == [];
    assert Insert([2], 3, key) == [3, 2];
    assert Insert([2, 1], 3, key) == [3, 2, 1];
  }

  datatype OrderError = NotAnInteger(pos: nat) | AppearsTwice(pos: nat) | OutOfRange(pos: nat)

  /** The variables `abs(int(t))` of the tokens. */
  function VarsOf(ts: seq<Token>): set<int>
    requires AllNum(ts)
  {
    set i | 0 <= i < |ts| :: Abs(ts[i].value)
  }

  /** An ordering file that `parse_ordering` accepts: integer tokens naming
      distinct variables, each with an entry in a map of length `n`. */
  ghost predicate Acceptable(ts: seq<Token>, n: nat)
  {
    AllNum(ts) &&
    (forall i :: 0 <= i < |ts| ==> Abs(ts[i].value) < n) &&
    (forall i, j :: 0 <= i < j < |ts| ==> Abs(ts[i].value) != Abs(ts[j].value))
  }

  /** The reason token `p` of an ordering file is refused, when its predecessors are fine. */
  ghost predicate Refuses(ts: seq<Token>, n: nat, e: OrderError)
  {
    var p := e.pos;
    p < |ts| && Acceptable(ts[..p], n) &&
    match e
    case NotAnInteger(_) => !ts[p].Num?
    case AppearsTwice(_) => ts[p].Num? && Abs(ts[p].value) in VarsOf(ts[..p])
    case OutOfRange(_) => ts[p].Num? && Abs(ts[p].value) !in VarsOf(ts[..p]) && Abs(ts[p].value) >= n
  }

  /** Appending an integer token naming a new variable with a map entry keeps the file acceptable. */
  lemma AcceptToken(done: seq<Token>, tok: Token, n: nat)
    requires Acceptable(done, n) && tok.Num? && Abs(tok.value) !in VarsOf(done) && Abs(tok.value) < n
    ensures Acceptable(done + [tok], n)
    ensures VarsOf(done + [tok]) == VarsOf(done) + {Abs(tok.value)}
  {
    var d := done + [tok];
    assert forall i :: 0 <= i < |done| ==> d[i] == done[i];
    assert d[|done|] == tok;
    forall x ensures x in VarsOf(d) <==> x in VarsOf(done) + {Abs(tok.value)} {
      if x in VarsOf(d) {
        var i :| 0 <= i < |d| && Abs(d[i].value) == x;
        if i < |done| { assert Abs(done[i].value) == x; }
      }
      if x in VarsOf(done) {
        var i :| 0 <= i < |done| && Abs(done[i].value) == x;
        assert Abs(d[i].value) == x;
      }
    }
  }

  /** The state of `parse_ordering` after the tokens `done`: they are acceptable,
      `seen` holds their variables, `cnt` is the next rank, and the map gives
      the j-th token's variable rank j + 1 and every other variable its old entry. */
  ghost predicate ReadSoFar(done: seq<Token>, varMap: seq<int>, m: seq<int>, seen: set<int>, cnt: int)
  {
    cnt == |done| + 1 && Acceptable(done, |varMap|) && seen == VarsOf(done) && |m| == |varMap|
    && (forall j :: 0 <= j < |done| ==> m[Abs(done[j].value)] == j + 1)
    && (forall v :: 0 <= v < |varMap| && v !in seen ==> m[v] == varMap[v])
  }

  /** Reading one more acceptable token: its variable gets rank `cnt`. */
  lemma ReadStep(done: seq<Token>, tok: Token, varMap: seq<int>, m: seq<int>, seen: set<int>, cnt: int)
    requires ReadSoFar(done, varMap, m, seen, cnt)
    requires tok.Num? && Abs(tok.value) !in seen && Abs(tok.value) < |m|
    ensures ReadSoFar(done + [tok], varMap, m[Abs(tok.value) := cnt], seen + {Abs(tok.value)}, cnt + 1)
  {
    AcceptToken(done, tok, |varMap|);
    var d, v, m' := done + [tok], Abs(tok.value), m[Abs(tok.value) := cnt];
    forall j | 0 <= j < |d| ensures m'[Abs(d[j].value)] == j + 1 {
      if j < |done| {
        assert d[j] == done[j];
        assert Abs(done[j].value) in VarsOf(done);
      }
    }
  }

  /** `parse_ordering`: the j-th token of the file (counting from 1 across all
      lines) gives its variable rank j; variables not mentioned keep their entry.
      A token that is not an integer (ValueError), a variable mentioned twice
      (`exit()`) or one without an entry (IndexError) aborts at that token. */
  method ParseOrdering(lines: seq<seq<Token>>, varMap: seq<int>) returns (r: Result<seq<int>, OrderError>)
    ensures r.Ok? <==> Acceptable(Flatten(lines), |varMap|)
    ensures r.Ok? ==> var ts := Flatten(lines);
      |r.value| == |varMap| &&
      (forall j :: 0 <= j < |ts| ==> r.value[Abs(ts[j].value)] == j + 1) &&
      (forall v :: 0 <= v < |varMap| && v !in VarsOf(ts) ==> r.value[v] == varMap[v])
    ensures r.Err? ==> Refuses(Flatten(lines), |varMap|, r.error)
  {
    ghost var ts := Flatten(lines);
    var m := varMap;
    var seen: set<int> := {};
    var cnt := 1;
    ghost var done: seq<Token> := [];
    var i := 0;
    while i < |lines|
      invariant 0 <= i <= |lines|
      invariant done == Flatten(lines[..i])
      invariant ReadSoFar(done, varMap, m, seen, cnt)
    {
      var line := lines[i];
      var k := 0;
      while k < |line|
        invariant 0 <= k <= |line|
        invariant done == Flatten(lines[..i]) + line[..k]
        invariant ReadSoFar(done, varMap, m, seen, cnt)
      {
        var tok := line[k];
        FlattenAt(lines, i, k);
        assert ts[..|done|] == done && ts[|done|] == tok;
        if !tok.Num? {
          return Err(NotAnInteger(cnt - 1));
        }
        var v := Abs(tok.value);
        if v in seen {
          return Err(AppearsTwice(cnt - 1));
        }
        if v >= |m| {
          return Err(OutOfRange(cnt - 1));
        }
        ReadStep(done, tok, varMap, m, seen, cnt);
        m := m[v := cnt];
        seen := seen + {v};
        cnt := cnt + 1;
        done := done + [tok];
        k := k + 1;
      }
      assert line[..k] == line;
      FlattenStep(lines, i);
      i := i + 1;
    }
    assert lines[..|lines|] == lines;
    return Ok(m);
  }

  /** `sign_int`: 1 for a positive literal, -1 otherwise (including 0). */
  function SignInt(l: int): (s: int)
    ensures s == 1 || s == -1
  {
    if l > 0 then 1 else -1
  }

  lemma SignIntAbs(l: int)
    requires l != 0
    ensures SignInt(l) * Abs(l) == l
  {}

  /** The literals of `lits` with each variable replaced by its map entry, keeping the sign. */
  function RenameLits(lits: seq<int>, varMap: seq<int>): (r: seq<int>)
    requires Ranked(lits, varMap)
    ensures |r| == |lits|
  {
    seq(|lits|, j requires 0 <= j < |lits| => SignInt(lits[j]) * varMap[Abs(lits[j])])
  }

  /** `rename_knf`: every constraint keeps its bound and its length; a literal
      without a map entry raises IndexError (None). */
  function RenameKnf(klauses: seq<Klause>, varMap: seq<int>): (r: Option<seq<Klause>>)
    ensures r.Some? <==> forall i :: 0 <= i < |klauses| ==> Ranked(klauses[i].lits, varMap)
    ensures r.Some? ==> |r.value| == |klauses| && forall i :: 0 <= i < |klauses| ==>
      r.value[i].bound == klauses[i].bound && r.value[i].lits == RenameLits(klauses[i].lits, varMap)
  {
    if forall i :: 0 <= i < |klauses| ==> Ranked(klauses[i].lits, varMap) then
      Some(seq(|klauses|, i requires 0 <= i < |klauses| => Klause(klauses[i].bound, RenameLits(klauses[i].lits, varMap))))
    else None
  }

  /** What the rename block makes of `var_map` on the variables 0..max_var:
      a soft variable goes to a soft variable, two soft variables to two
      different ones, and every other variable to itself. */
  ghost predicate SoftRenaming(m: seq<int>, soft: seq<int>, maxVar: int)
  {
    && (forall v :: v in soft ==> 0 <= v <= maxVar && v < |m| && m[v] in soft)
    && (forall i :: 0 <= i <= maxVar && i !in soft ==> i < |m| && m[i] == i)
    && (forall u, v :: u in soft && v in soft && u != v ==> m[u] != m[v])
  }

  /** The renamed variable of a literal over 0..max_var: a positive variable
      for a nonzero literal, 0 for 0, and different variables for different
      ones. */
  lemma SoftRenamingVars(m: seq<int>, soft: seq<int>, maxVar: int, u: int, v: int)
    requires SoftRenaming(m, soft, maxVar) && 0 !in soft
    requires 0 <= u <= maxVar && 0 <= v <= maxVar
    ensures u < |m| && v < |m|
    ensures (m[u] > 0 <==> u > 0) && (m[u] == 0 <==> u == 0)
    ensures u != v ==> m[u] != m[v]
  {
    if u in soft { assert m[u] in soft; }
    if v in soft { assert m[v] in soft; }
  }

  /** With the map of the rename block and 0 not a soft variable, renaming a
      literal over 0..max_var keeps its sign, and keeps 0 at 0. */
  lemma RenameKeepsSigns(lits: seq<int>, m: seq<int>, soft: seq<int>, maxVar: int)
    requires SoftRenaming(m, soft, maxVar) && 0 !in soft
    requires forall j :: 0 <= j < |lits| ==> Abs(lits[j]) <= maxVar
    ensures Ranked(lits, m)
    ensures forall j :: 0 <= j < |lits| ==>
      (RenameLits(lits, m)[j] > 0 <==> lits[j] > 0) && (RenameLits(lits, m)[j] == 0 <==> lits[j] == 0)
  {
    forall j | 0 <= j < |lits| ensures Abs(lits[j]) < |m| {
      SoftRenamingVars(m, soft, maxVar, Abs(lits[j]), Abs(lits[j]));
    }
    var r := RenameLits(lits, m);
    forall j | 0 <= j < |lits| ensures (r[j] > 0 <==> lits[j] > 0) && (r[j] == 0 <==> lits[j] == 0) {
      SoftRenamingVars(m, soft, maxVar, Abs(lits[j]), Abs(lits[j]));
    }
  }

  /** With the same map, `rename_knf` loses nothing: two literal lists over
      0..max_var are renamed alike exactly when they are equal. */
  lemma RenameInjective(lits: seq<int>, lits': seq<int>, m: seq<int>, soft: seq<int>, maxVar: int)
    requires SoftRenaming(m, soft, maxVar) && 0 !in soft
    requires forall j :: 0 <= j < |lits| ==> Abs(lits[j]) <= maxVar
    requires forall j :: 0 <= j < |lits'| ==> Abs(lits'[j]) <= maxVar
    ensures Ranked(lits, m) && Ranked(lits', m)
    ensures RenameLits(lits, m) == RenameLits(lits', m) <==> lits == lits'
  {
    RenameKeepsSigns(lits, m, soft, maxVar);
    RenameKeepsSigns(lits', m, soft, maxVar);
    var r, r' := RenameLits(lits, m), RenameLits(lits', m);
    if r == r' {
      forall j | 0 <= j < |lits| ensures lits[j] == lits'[j] {
        SoftRenamingVars(m, soft, maxVar, Abs(lits[j]), Abs(lits'[j]));
      }
    }
  }

  /** Sorting distinct numbers ascending gives a strictly increasing sequence. */
  lemma SortDistinctIncreasing(s: seq<int>)
    requires Distinct(s)
    ensures StrictlyIncreasing(StableSort(s, x => x))
  {
    var t := StableSort(s, x => x);
    StableSortSorted(s, x => x);
    StableSortPermutation(s, x => x);
    DistinctPermutation(s, t);
    forall i, j | 0 <= i < j < |t| ensures t[i] < t[j] {
      assert (x => x)(t[i]) <= (x => x)(t[j]);
    }
  }

  /** Position of `x` in `s` (Python's `s.index(x)`). */
  function IndexOf(s: seq<int>, x: int): (p: nat)
    requires x in s
    ensures p < |s| && s[p] == x && forall q :: 0 <= q < p ==> s[q] != x
  {
    if s[0] == x then 0 else 1 + IndexOf(s[1..], x)
  }

  /** The soft ids in ascending order (`soft_units.sort()`). */
  function Ascending(soft: seq<int>): seq<int> { StableSort(soft, x => x) }

  /** The map the rename block leaves in `var_map`: with A the soft variables
      in ascending order and B the same variables in rank order, B[p] goes to
      A[p], every other index up to `max_var` to itself, and the entries above
      `max_var` are those of the rank map. */
  ghost predicate SoftRemap(m: seq<int>, soft: seq<int>, varMap: seq<int>, maxVar: int)
  {
    var a := Ascending(soft);
    var b := StableSort(a, Rank(varMap));
    maxVar < |m| == |varMap| && |b| == |a| == |soft| &&
    (forall p :: 0 <= p < |b| ==> 0 <= b[p] < |varMap| && m[b[p]] == a[p]) &&
    (forall i :: 0 <= i <= maxVar && i !in soft ==> m[i] == i) &&
    (forall i :: 0 <= i < |varMap| && i > maxVar ==> m[i] == varMap[i])
  }

  /** The rename block of `generate_cnf`: with A the soft variables in ascending
      order and B the same variables in rank order, the variable B[p] is renamed
      A[p]; every other index up to `max_var` maps to itself. An unranked soft
      variable (in the sort, when there are two or more), a soft variable above
      `max_var` (`is_soft`), or a map shorter than `max_var + 1` raise
      IndexError (None). */
  method RenameSoft(soft: seq<int>, varMap: seq<int>, maxVar: int) returns (r: Option<seq<int>>)
    requires Distinct(soft) && forall i :: 0 <= i < |soft| ==> soft[i] >= 0
    ensures r.Some? <==>
      (|soft| < 2 || Ranked(soft, varMap)) && (forall i :: 0 <= i < |soft| ==> soft[i] <= maxVar) && |varMap| >= maxVar + 1
    ensures r.Some? ==> SoftRemap(r.value, soft, varMap, maxVar)
    ensures r.Some? ==> forall v :: v in soft ==> 0 <= v < |r.value| && r.value[v] in soft
    ensures r.Some? ==> forall u, v :: u in soft && v in soft && u != v ==> r.value[u] != r.value[v]
    ensures r.Some? ==> SoftRenaming(r.value, soft, maxVar)
  {
    var ab := RankSoft(soft, varMap);
    if ab.None? {
      return None;
    }
    var (a, b) := ab.value;
    assert forall j :: 0 <= j < |b| ==> b[j] >= 0 by {
      forall j | 0 <= j < |b| ensures b[j] >= 0 {
        assert b[j] in soft;
        var i :| 0 <= i < |soft| && soft[i] == b[j];
      }
    }
    var n := if maxVar + 1 > 0 then maxVar + 1 else 0;
    var ok, isSoft := MarkSoft(b, n);
    if !ok {
      var j :| 0 <= j < |b| && b[j] >= n;
      assert b[j] in soft;
      return None;
    }
    assert forall i :: 0 <= i < |soft| ==> soft[i] <= maxVar by {
      forall i | 0 <= i < |soft| ensures soft[i] <= maxVar {
        assert soft[i] in b;
      }
    }
    var mapped := Remap(a, b, isSoft, varMap);
    if mapped.None? {
      return None;
    }
    var m := mapped.value;
    RenamedFacts(soft, a, b, m, n);
    return Some(m);
  }

  /** The renamed map fixes every non-soft index below `n` and permutes the soft variables. */
  lemma RenamedFacts(soft: seq<int>, a: seq<int>, b: seq<int>, m: seq<int>, n: int)
    requires StrictlyIncreasing(a) && |a| == |b| && multiset(a) == multiset(soft)
    requires forall v :: v in b <==> v in soft
    requires forall p :: 0 <= p < |b| ==> 0 <= b[p] < |m| && m[b[p]] == a[p]
    requires n <= |m| && forall j :: 0 <= j < n && j !in b ==> m[j] == j
    ensures forall j :: 0 <= j < n && j !in soft ==> m[j] == j
    ensures forall v :: v in soft ==> 0 <= v < |m| && m[v] in soft
    ensures forall u, v :: u in soft && v in soft && u != v ==> m[u] != m[v]
  {
    SoftPermuted(soft, a, b, m);
  }

  /** Lines 434-436: A is the soft variables in ascending order, B the same
      variables sorted by rank; None when `sort_literals` meets an unranked variable. */
  method RankSoft(soft: seq<int>, varMap: seq<int>) returns (r: Option<(seq<int>, seq<int>)>)
    requires Distinct(soft)
    ensures r.Some? <==> |soft| < 2 || Ranked(soft, varMap)
    ensures r.Some? ==> var (a, b) := r.value;
      && a == Ascending(soft) && b == StableSort(a, Rank(varMap))
      && multiset(a) == multiset(soft) && StrictlyIncreasing(a) && Distinct(a) && |a| == |soft|
      && Distinct(b) && |b| == |a| && forall v :: v in b <==> v in soft
  {
    var a := Ascending(soft);
    AscendingFacts(soft);
    if |soft| >= 2 && !Ranked(soft, varMap) {
      return None;
    }
    if |a| >= 2 && !Ranked(a, varMap) {
      RankedPermutation(a, soft, varMap);
    }
    var b := SortLiterals(a, varMap).value;
    RankOrderFacts(soft, a, varMap);
    assert forall j :: 0 <= j < |b| ==> b[j] in soft;
    return Some((a, b));
  }

  /** `is_soft = [0] * (max_var + 1)` and `is_soft[l] = 1` for every l in B;
      a variable at or above the length raises IndexError (ok false). */
  method MarkSoft(b: seq<int>, n: nat) returns (ok: bool, isSoft: array<int>)
    requires forall j :: 0 <= j < |b| ==> b[j] >= 0
    ensures fresh(isSoft) && isSoft.Length == n
    ensures ok <==> forall j :: 0 <= j < |b| ==> b[j] < n
    ensures ok ==> forall v :: 0 <= v < n ==> (isSoft[v] == 1 <==> v in b)
  {
    isSoft := new int[n](_ => 0);
    var k := 0;
    while k < |b|
      invariant 0 <= k <= |b|
      invariant forall j :: 0 <= j < k ==> b[j] < n
      invariant forall v :: 0 <= v < n ==> (isSoft[v] == 1 <==> v in b[..k])
    {
      if b[k] >= n {
        return false, isSoft;
      }
      isSoft[b[k]] := 1;
      assert b[..k + 1] == b[..k] + [b[k]];
      k := k + 1;
    }
    assert b[..k] == b;
    return true, isSoft;
  }

  /** The loop `for i in range(max_var + 1)` of the rename block: a soft index
      i gets `soft_units[sorted_units.index(i)]`, any other index itself; an
      index past the end of the map raises IndexError. */
  method Remap(a: seq<int>, b: seq<int>, isSoft: array<int>, varMap: seq<int>) returns (r: Option<seq<int>>)
    requires Distinct(b) && |a| == |b| && forall j :: 0 <= j < |b| ==> 0 <= b[j] < isSoft.Length
    requires forall v :: 0 <= v < isSoft.Length ==> (isSoft[v] == 1 <==> v in b)
    ensures r.Some? <==> isSoft.Length <= |varMap|
    ensures r.Some? ==>
      |r.value| == |varMap| &&
      (forall p :: 0 <= p < |b| ==> r.value[b[p]] == a[p]) &&
      (forall j :: 0 <= j < isSoft.Length && j !in b ==> r.value[j] == j) &&
      (forall j :: isSoft.Length <= j < |varMap| ==> r.value[j] == varMap[j])
  {
    var m := varMap;
    var i := 0;
    while i < isSoft.Length
      invariant 0 <= i <= isSoft.Length && i <= |m|
      invariant |m| == |varMap|
      invariant forall p :: 0 <= p < |b| && b[p] < i ==> m[b[p]] == a[p]
      invariant forall j :: 0 <= j < i && j !in b ==> m[j] == j
      invariant forall j :: i <= j < |m| ==> m[j] == varMap[j]
    {
      if i >= |m| {
        return None;
      }
      if isSoft[i] == 1 {
        var q := IndexOf(b, i);
        m := m[i := a[q]];
      } else {
        m := m[i := i];
      }
      i := i + 1;
    }
    return Some(m);
  }

  lemma AscendingFacts(soft: seq<int>)
    requires Distinct(soft)
    ensures var a := Ascending(soft);
      multiset(a) == multiset(soft) && StrictlyIncreasing(a) && Distinct(a) && |a| == |soft|
  {
    StableSortPermutation(soft, x => x);
    SortDistinctIncreasing(soft);
  }

  lemma RankOrderFacts(soft: seq<int>, a: seq<int>, varMap: seq<int>)
    requires multiset(a) == multiset(soft) && Distinct(a)
    ensures var b := StableSort(a, Rank(varMap));
      multiset(b) == multiset(a) && Distinct(b) && forall v :: v in b <==> v in soft
  {
    var b := StableSort(a, Rank(varMap));
    StableSortPermutation(a, Rank(varMap));
    DistinctPermutation(a, b);
    forall v ensures v in b <==> v in soft {
      assert v in b <==> v in multiset(b);
      assert v in soft <==> v in multiset(soft);
    }
  }

  /** Sending B[p] to A[p] permutes the soft variables. */
  lemma SoftPermuted(soft: seq<int>, a: seq<int>, b: seq<int>, m: seq<int>)
    requires StrictlyIncreasing(a) && |a| == |b| && multiset(a) == multiset(soft)
    requires forall v :: v in b <==> v in soft
    requires forall p :: 0 <= p < |b| ==> 0 <= b[p] < |m| && m[b[p]] == a[p]
    ensures forall v :: v in soft ==> 0 <= v < |m| && m[v] in soft
    ensures forall u, v :: u in soft && v in soft && u != v ==> m[u] != m[v]
  {
    forall v | v in soft ensures 0 <= v < |m| && m[v] in soft {
      var p :| 0 <= p < |b| && b[p] == v;
      assert a[p] in multiset(soft);
    }
    forall u, v | u in soft && v in soft && u != v ensures m[u] != m[v] {
      var p :| 0 <= p < |b| && b[p] == u;
      var q :| 0 <= q < |b| && b[q] == v;
      assert a[p] != a[q] by {
        if p < q { assert a[p] < a[q]; } else { assert a[q] < a[p]; }
      }
    }
  }
}
