/** `tools/VIG_ordering.py`: parse a KNF file into variable clauses and a
    signed net-count table per cardinality constraint, build the variable
    incidence graph, keep the Louvain partitions with the most communities,
    pick one by group-size deviation, and emit each constraint's literals in
    the order of the chosen groups. */
module VigOrdering {
  import opened Wrappers
  import opened Common
  import opened Sorting
  import opened VigCommunities
  import LiteralOrder

  // ---------------------------------------------------------------------
  // 1. Parsing

  /** A line whose first token is `k`. */
  predicate IsK(line: seq<Token>) { line != [] && line[0] == Word("k") }

  /** `_, _, total_num_vars, _ = info.split()` and `int(total_num_vars)` on the
      first line: exactly four tokens, the third an integer. */
  function HeaderTotal(lines: seq<seq<Token>>): Option<int>
  {
    if |lines| > 0 && |lines[0]| == 4 && lines[0][2].Num? then Some(lines[0][2].value) else None
  }

  /** The first pass gets through a line: it has a first token (`vars[0]`), and
      a line that is not a `k` line has integers before its last token. */
  predicate ClauseLineOk(line: seq<Token>)
  {
    line != [] && (IsK(line) || AllNum(DropLast(line)))
  }

  /** The literals `tokens[2:-1]` of a `k` line. */
  function KLits(line: seq<Token>): seq<int>
    requires AllNum(Middle(line))
  {
    Values(Middle(line))
  }

  /** The second pass gets through a `k` line: `int(vars[1])`, integer
      literals, and every nonzero literal indexes a row of `total` entries. */
  predicate ConstraintLineOk(line: seq<Token>, total: int)
  {
    |line| >= 2 && line[1].Num? && AllNum(Middle(line))
    && forall l :: l in KLits(line) ==> l == 0 || Abs(l) <= total
  }

  /** The absolute values of a clause's literals (`_clause`). */
  function AbsAll(s: seq<int>): (r: seq<int>)
    ensures |r| == |s| && forall i :: 0 <= i < |s| ==> r[i] == Abs(s[i])
  {
    seq(|s|, i requires 0 <= i < |s| => Abs(s[i]))
  }

  /** `_clauses` after the first pass: one variable list per line that is
      not a `k` line, in file order. */
  function Clauses(body: seq<seq<Token>>): seq<seq<int>>
  {
    if body == [] then []
    else
      var line := body[|body| - 1];
      Clauses(body[..|body| - 1])
        + (if ClauseLineOk(line) && !IsK(line) then [AbsAll(Values(DropLast(line)))] else [])
  }

  /** `cardinality_constraint_indexes`: the positions of the `k` lines, in
      increasing order, every `k` line among them. */
  function KIndexes(body: seq<seq<Token>>): (r: seq<nat>)
    ensures forall j :: 0 <= j < |r| ==> r[j] < |body| && IsK(body[r[j]])
    ensures forall i, j :: 0 <= i < j < |r| ==> r[i] < r[j]
    ensures forall i :: 0 <= i < |body| && IsK(body[i]) ==> i in r
  {
    if body == [] then []
    else
      var r0 := KIndexes(body[..|body| - 1]);
      assert forall i :: 0 <= i < |body| - 1 ==> body[..|body| - 1][i] == body[i];
      r0 + (if IsK(body[|body| - 1]) then [|body| - 1] else [])
  }

  /** The number of occurrences of variable `v` in the variable clauses. */
  function OccTotal(cls: seq<seq<int>>, v: int): nat
  {
    if cls == [] then 0 else OccTotal(cls[..|cls| - 1], v) + Count(cls[|cls| - 1], v)
  }

  /** `var_occ_cnts` as a dictionary: exactly the variables that occur, each
      with its number of occurrences. */
  ghost predicate OccMatches(occ: map<int, nat>, cls: seq<seq<int>>)
  {
    (forall v :: v in occ <==> OccTotal(cls, v) > 0)
    && forall v :: v in occ ==> occ[v] == OccTotal(cls, v)
  }

  /** Positive minus negative occurrences of variable `v`. */
  function NetCount(lits: seq<int>, v: int): int
  {
    Count(lits, v) - Count(lits, -v)
  }

  /** `[0 for _ in range(total_num_vars)]` has this many entries. */
  function RowSize(total: int): nat { if total > 0 then total else 0 }

  /** `cardinality_constraint_bounds` and `cardinality_constraints` for the
      `k` lines at positions `ks`: the bound, and a row whose entry `v - 1`
      is the net count of `v` in the constraint. */
  ghost predicate TableFrom(body: seq<seq<Token>>, ks: seq<nat>, total: int, bounds: seq<int>, table: seq<seq<int>>)
  {
    |bounds| == |ks| && |table| == |ks|
    && forall i :: 0 <= i < |ks| ==>
      ks[i] < |body| && ConstraintLineOk(body[ks[i]], total)
      && bounds[i] == body[ks[i]][1].value
      && |table[i]| == RowSize(total)
      && forall v :: 1 <= v <= total ==> table[i][v - 1] == NetCount(KLits(body[ks[i]]), v)
  }

  /** The parsed formula: `total_num_vars`, `_clauses`, `var_occ_cnts`, the
      bounds and the net-count table. */
  datatype Parsed = Parsed(total: int, clauses: seq<seq<int>>, occ: map<int, nat>, bounds: seq<int>, table: seq<seq<int>>)

  /** What the two parsing passes compute from the lines of the file. */
  ghost predicate ParsedFrom(lines: seq<seq<Token>>, p: Parsed)
  {
    HeaderTotal(lines) == Some(p.total)
    && p.clauses == Clauses(lines[1..])
    && OccMatches(p.occ, p.clauses)
    && TableFrom(lines[1..], KIndexes(lines[1..]), p.total, p.bounds, p.table)
  }

  /** Every line after the header gets through both passes. */
  ghost predicate BodyOk(body: seq<seq<Token>>, total: int)
  {
    (forall i :: 0 <= i < |body| ==> ClauseLineOk(body[i]))
    && forall i :: 0 <= i < |body| && IsK(body[i]) ==> ConstraintLineOk(body[i], total)
  }

  /** The file parses: a header, and every line after it gets through both passes. */
  ghost predicate Parsable(lines: seq<seq<Token>>)
  {
    HeaderTotal(lines).Some? && BodyOk(lines[1..], HeaderTotal(lines).value)
  }

  datatype VigError =
    | BadHeader              // unpacking `info.split()` or `int(total_num_vars)` raises
    | EmptyLine(line: nat)   // `vars[0]` of an empty line (positions count from the line after the header)
    | BadClause(line: nat)   // `int(vars[j])` raises on a clause line
    | BadConstraint(line: nat) // `int()` or an index into the table row raises on a `k` line
    | NoCommunities          // `best_communities[0]` of an empty list
    | EmptyPartition         // `total_num_vars // 0`
    | MissingCount           // `var_occ_cnts[x]` raises KeyError while sorting a group
    | BadIndex               // `cardinality_constraints[index][i - 1]` raises IndexError
    | NoConstraint           // `k_constraints[0]` of an empty list

  /** `var_occ_cnts[v] += 1` (or `= 1` for a new key) for every variable of one clause. */
  method AddVars(occ: map<int, nat>, c: seq<int>) returns (occ': map<int, nat>)
    ensures forall v :: v in occ' <==> v in occ || Count(c, v) > 0
    ensures forall v :: v in occ' ==> occ'[v] == (if v in occ then occ[v] else 0) + Count(c, v)
  {
    occ' := occ;
    for j := 0 to |c|
      invariant forall v :: v in occ' <==> v in occ || Count(c[..j], v) > 0
      invariant forall v :: v in occ' ==> occ'[v] == (if v in occ then occ[v] else 0) + Count(c[..j], v)
    {
      assert c[..j + 1][..j] == c[..j];
      var v := c[j];
      if v !in occ' {
        occ' := occ'[v := 1];
      } else {
        occ' := occ'[v := occ'[v] + 1];
      }
    }
    assert c[..|c|] == c;
  }

  lemma OccStep(cls: seq<seq<int>>, c: seq<int>, occ: map<int, nat>, occ': map<int, nat>)
    requires OccMatches(occ, cls)
    requires forall v :: v in occ' <==> v in occ || Count(c, v) > 0
    requires forall v :: v in occ' ==> occ'[v] == (if v in occ then occ[v] else 0) + Count(c, v)
    ensures OccMatches(occ', cls + [c])
  {
    assert (cls + [c])[..|cls|] == cls;
  }

  /** The first passes over one more line: `Clauses` and `KIndexes` grow by that line alone. */
  lemma FirstPassPrefix(body: seq<seq<Token>>, i: nat)
    requires i < |body|
    ensures Clauses(body[..i + 1]) == Clauses(body[..i])
      + (if ClauseLineOk(body[i]) && !IsK(body[i]) then [AbsAll(Values(DropLast(body[i])))] else [])
    ensures KIndexes(body[..i + 1]) == KIndexes(body[..i]) + (if IsK(body[i]) then [i] else [])
  {
    assert body[..i + 1][..i] == body[..i];
  }

  /** The first loop over the lines: variable clauses, occurrence counts and
      the positions of the `k` lines. */
  method FirstPass(body: seq<seq<Token>>) returns (r: Result<(seq<seq<int>>, map<int, nat>, seq<nat>), VigError>)
    ensures r.Ok? <==> forall i :: 0 <= i < |body| ==> ClauseLineOk(body[i])
    ensures r.Ok? ==> r.value.0 == Clauses(body) && OccMatches(r.value.1, r.value.0) && r.value.2 == KIndexes(body)
    ensures r.Err? ==>
      exists i :: 0 <= i < |body| && !ClauseLineOk(body[i])
        && (forall j :: 0 <= j < i ==> ClauseLineOk(body[j]))
        && r.error == (if body[i] == [] then EmptyLine(i) else BadClause(i))
  {
    var cls: seq<seq<int>> := [];
    var occ: map<int, nat> := map[];
    var ks: seq<nat> := [];
    for i := 0 to |body|
      invariant forall k :: 0 <= k < i ==> ClauseLineOk(body[k])
      invariant cls == Clauses(body[..i]) && OccMatches(occ, cls) && ks == KIndexes(body[..i])
    {
      FirstPassPrefix(body, i);
      var line := body[i];
      if line == [] {
        return Err(EmptyLine(i));
      }
      if line[0] == Word("k") {
        ks := ks + [i];
      } else {
        if !AllNum(DropLast(line)) {
          return Err(BadClause(i));
        }
        var c := AbsAll(Values(DropLast(line)));
        var occ' := AddVars(occ, c);
        OccStep(cls, c, occ, occ');
        cls, occ := cls + [c], occ';
      }
    }
    assert body[..|body|] == body;
    return Ok((cls, occ, ks));
  }

  /** One row of the table: `+= 1` at `v - 1` for a literal `v > 0`, `-= 1` at
      `-v - 1` for a literal `v < 0`, nothing for 0; None when an index is
      past the row. */
  method FillRow(lits: seq<int>, total: int) returns (r: Option<seq<int>>)
    ensures r.Some? <==> forall l :: l in lits ==> l == 0 || Abs(l) <= total
    ensures r.Some? ==> |r.value| == RowSize(total) && forall v :: 1 <= v <= total ==> r.value[v - 1] == NetCount(lits, v)
  {
    var row := new int[RowSize(total)](_ => 0);
    for j := 0 to |lits|
      invariant forall l :: l in lits[..j] ==> l == 0 || Abs(l) <= total
      invariant forall v :: 1 <= v <= row.Length ==> row[v - 1] == NetCount(lits[..j], v)
    {
      assert lits[..j + 1][..j] == lits[..j];
      var l := lits[j];
      assert l in lits;
      forall v | 1 <= v
        ensures NetCount(lits[..j + 1], v) == NetCount(lits[..j], v) + (if l == v then 1 else 0) - (if l == -v then 1 else 0)
      {
        assert Count(lits[..j + 1], v) == Count(lits[..j], v) + (if l == v then 1 else 0);
        assert Count(lits[..j + 1], -v) == Count(lits[..j], -v) + (if l == -v then 1 else 0);
      }
      if l > 0 {
        if l - 1 >= row.Length {
          return None;
        }
        row[l - 1] := row[l - 1] + 1;
      } else if l < 0 {
        if -l - 1 >= row.Length {
          return None;
        }
        row[-l - 1] := row[-l - 1] - 1;
      }
      ghost var next := lits[..j + 1];
      forall v | 1 <= v <= row.Length ensures row[v - 1] == NetCount(next, v) {
        assert NetCount(next, v) == NetCount(lits[..j], v) + (if l == v then 1 else 0) - (if l == -v then 1 else 0);
      }
    }
    assert lits[..|lits|] == lits;
    return Some(row[..]);
  }

  /** The second loop: the bound and table row of every `k` line, in order. */
  method SecondPass(body: seq<seq<Token>>, ks: seq<nat>, total: int) returns (r: Result<(seq<int>, seq<seq<int>>), VigError>)
    requires forall i :: 0 <= i < |ks| ==> ks[i] < |body|
    ensures r.Ok? <==> forall i :: 0 <= i < |ks| ==> ConstraintLineOk(body[ks[i]], total)
    ensures r.Ok? ==> TableFrom(body, ks, total, r.value.0, r.value.1)
    ensures r.Err? ==>
      exists i :: 0 <= i < |ks| && !ConstraintLineOk(body[ks[i]], total) && r.error == BadConstraint(ks[i])
  {
    var bounds: seq<int> := [];
    var table: seq<seq<int>> := [];
    for i := 0 to |ks|
      invariant forall k :: 0 <= k < i ==> ConstraintLineOk(body[ks[k]], total)
      invariant TableFrom(body, ks[..i], total, bounds, table)
    {
      var line := body[ks[i]];
      if |line| < 2 || !line[1].Num? || !AllNum(Middle(line)) {
        return Err(BadConstraint(ks[i]));
      }
      var row := FillRow(KLits(line), total);
      if row.None? {
        return Err(BadConstraint(ks[i]));
      }
      bounds := bounds + [line[1].value];
      table := table + [row.value];
    }
    assert ks[..|ks|] == ks;
    return Ok((bounds, table));
  }

  /** Step 1 of `main`: the header, then both passes over the remaining lines. */
  method ParseVig(lines: seq<seq<Token>>) returns (r: Result<Parsed, VigError>)
    ensures r == Err(BadHeader) <==> HeaderTotal(lines).None?
    ensures r.Ok? <==> Parsable(lines)
    ensures r.Err? ==> r.error.BadHeader? || r.error.EmptyLine? || r.error.BadClause? || r.error.BadConstraint?
    ensures r.Ok? ==> ParsedFrom(lines, r.value)
  {
    var t := HeaderTotal(lines);
    if t.None? {
      return Err(BadHeader);
    }
    var total := t.value;
    var body := lines[1..];
    var fp := FirstPass(body);
    if fp.Err? {
      return Err(fp.error);
    }
    var (cls, occ, ks) := fp.value;
    var sp := SecondPass(body, ks, total);
    if sp.Err? {
      return Err(sp.error);
    }
    forall i | 0 <= i < |body| && IsK(body[i]) ensures ConstraintLineOk(body[i], total) {
      var k :| 0 <= k < |ks| && ks[k] == i;
    }
    return Ok(Parsed(total, cls, occ, sp.value.0, sp.value.1));
  }

  // ---------------------------------------------------------------------
  // 4. Selection

  /** The initial `min_deviation`. */
  const Sentinel: int := 99999999999

  /** `current_deviation`: the total distance of the group sizes from the ideal size. */
  function Deviation(p: Partition, ideal: int): nat
  {
    if p == [] then 0 else Deviation(p[..|p| - 1], ideal) + Abs(|p[|p| - 1]| - ideal)
  }

  /** The inner loop over the groups of one candidate. */
  method GroupDeviation(p: Partition, ideal: int) returns (d: int)
    ensures d == Deviation(p, ideal)
  {
    d := 0;
    for k := 0 to |p|
      invariant d == Deviation(p[..k], ideal)
    {
      assert p[..k + 1][..k] == p[..k];
      d := d + Abs(|p[k]| - ideal);
    }
    assert p[..|p|] == p;
  }

  /** `best_group` after the selection loop, which never lowers
      `min_deviation`: the last candidate whose deviation is below the
      sentinel, or `[]` when there is none. */
  ghost predicate Chosen(best: seq<Partition>, ideal: int, chosen: Partition)
  {
    (chosen == [] && forall k :: 0 <= k < |best| ==> Deviation(best[k], ideal) >= Sentinel)
    || exists k ::
      0 <= k < |best| && chosen == best[k] && Deviation(best[k], ideal) < Sentinel
      && forall k' :: k < k' < |best| ==> Deviation(best[k'], ideal) >= Sentinel
  }

  /** Step 4 of `main`: `ideal_group_size = total_num_vars // len(best_communities[0])`
      (floor division by a positive number is Dafny's `/`) and the selection loop. */
  method Select(best: seq<Partition>, total: int) returns (r: Result<Partition, VigError>)
    ensures best == [] <==> r == Err(NoCommunities)
    ensures best != [] && |best[0]| == 0 <==> r == Err(EmptyPartition)
    ensures r.Ok? <==> best != [] && |best[0]| > 0
    ensures r.Ok? ==> Chosen(best, total / |best[0]|, r.value)
  {
    if best == [] {
      return Err(NoCommunities);
    }
    if |best[0]| == 0 {
      return Err(EmptyPartition);
    }
    var ideal := total / |best[0]|;
    var bestGroup: Partition := [];
    ghost var at := -1;
    for i := 0 to |best|
      invariant -1 <= at < i
      invariant at == -1 ==> bestGroup == [] && forall k :: 0 <= k < i ==> Deviation(best[k], ideal) >= Sentinel
      invariant at >= 0 ==> bestGroup == best[at] && Deviation(best[at], ideal) < Sentinel
      invariant forall k :: at < k < i ==> Deviation(best[k], ideal) >= Sentinel
    {
      var d := GroupDeviation(best[i], ideal);
      if d < Sentinel {
        bestGroup := best[i];
        at := i;
      }
    }
    return Ok(bestGroup);
  }

  /** The candidates leave the selection no freedom. */
  lemma ChosenUnique(best: seq<Partition>, ideal: int, c1: Partition, c2: Partition)
    requires Chosen(best, ideal, c1) && Chosen(best, ideal, c2)
    ensures c1 == c2
  {
    if exists k :: 0 <= k < |best| && Deviation(best[k], ideal) < Sentinel {
      var k1 :| 0 <= k1 < |best| && c1 == best[k1] && Deviation(best[k1], ideal) < Sentinel
        && forall k' :: k1 < k' < |best| ==> Deviation(best[k'], ideal) >= Sentinel;
      var k2 :| 0 <= k2 < |best| && c2 == best[k2] && Deviation(best[k2], ideal) < Sentinel
        && forall k' :: k2 < k' < |best| ==> Deviation(best[k'], ideal) >= Sentinel;
      assert k1 == k2;
    }
  }

  /** Two candidates of 2 groups for 2 variables (ideal size 1): the first
      has deviation 0 and the second 2, yet the second is chosen. */
  lemma SelectionKeepsLast()
    ensures Deviation([[1], [2]], 1) == 0 && Deviation([[], [1, 2]], 1) == 2
    ensures forall c :: Chosen([[[1], [2]], [[], [1, 2]]], 2 / 2, c) ==> c == [[], [1, 2]]
  {
    var p1: Partition := [[], [1, 2]];
    var e: Partition := [[]];
    assert p1[..1] == e && e[..0] == [];
    assert Deviation(p1, 1) == 2;
    var p0: Partition := [[1], [2]];
    var e1: Partition := [[1]];
    assert p0[..1] == e1 && e1[..0] == [];
    assert Deviation(p0, 1) == 0;
    var best := [p0, p1];
    forall c | Chosen(best, 1, c) ensures c == p1 {
      var k :| 0 <= k < |best| && c == best[k] && Deviation(best[k], 1) < Sentinel
        && forall k' :: k < k' < |best| ==> Deviation(best[k'], 1) >= Sentinel;
      assert best[1] == p1 && Deviation(best[1], 1) < Sentinel;
      assert k == 1;
    }
  }

  // ---------------------------------------------------------------------
  // 5. Optional in-group sort and emission

  /** `var_occ_cnts[x]`, 0 for a variable that is not a key. */
  function CountOf(occ: map<int, nat>, x: int): int { if x in occ then occ[x] else 0 }

  /** The sort key `lambda x: var_occ_cnts[x]` with `reverse=True`, as an
      ascending key. */
  function OccKey(occ: map<int, nat>): int -> int { x => -CountOf(occ, x) }

  /** Every variable of the groups is a key of `var_occ_cnts`. */
  predicate AllCounted(groups: Partition, occ: map<int, nat>)
  {
    forall i, j :: 0 <= i < |groups| && 0 <= j < |groups[i]| ==> groups[i][j] in occ
  }

  /** The `sort_variables` loop: each group stably sorted by descending
      occurrence count; a variable that is not a key raises KeyError. */
  function SortGroups(groups: Partition, occ: map<int, nat>): Result<Partition, VigError>
  {
    if AllCounted(groups, occ) then Ok(SortAll(groups, OccKey(occ)))
    else Err(MissingCount)
  }

  /** Each sorted group is a rearrangement of the original group with
      nonincreasing counts; equal counts keep ascending ids when the group
      was ascending. */
  lemma SortGroupsOrdered(groups: Partition, occ: map<int, nat>)
    requires AllCounted(groups, occ)
    ensures var s := SortGroups(groups, occ).value;
      |s| == |groups|
      && forall i :: 0 <= i < |s| ==>
        multiset(s[i]) == multiset(groups[i])
        && (forall a, b :: 0 <= a < b < |s[i]| ==> CountOf(occ, s[i][a]) >= CountOf(occ, s[i][b]))
        && (StrictlyIncreasing(groups[i]) ==>
          forall a, b :: 0 <= a < b < |s[i]| && CountOf(occ, s[i][a]) == CountOf(occ, s[i][b]) ==> s[i][a] < s[i][b])
  {
    var s := SortGroups(groups, occ).value;
    forall i | 0 <= i < |s|
      ensures multiset(s[i]) == multiset(groups[i])
      ensures forall a, b :: 0 <= a < b < |s[i]| ==> CountOf(occ, s[i][a]) >= CountOf(occ, s[i][b])
      ensures StrictlyIncreasing(groups[i]) ==>
        forall a, b :: 0 <= a < b < |s[i]| && CountOf(occ, s[i][a]) == CountOf(occ, s[i][b]) ==> s[i][a] < s[i][b]
    {
      StableSortPermutation(groups[i], OccKey(occ));
      StableSortSorted(groups[i], OccKey(occ));
      if StrictlyIncreasing(groups[i]) {
        StableSortOfIncreasing(groups[i], OccKey(occ));
      }
    }
  }

  /** Python's `row[k]`: a negative index counts from the end; None is IndexError. */
  function PyAt(row: seq<int>, k: int): Option<int>
  {
    if 0 <= k < |row| then Some(row[k]) else if -|row| <= k < 0 then Some(row[|row| + k]) else None
  }

  /** The generator for one constraint: each variable `i` of the walk
      repeated `abs(row[i - 1])` times with the sign of `row[i - 1]`. */
  function Emit(vars: seq<int>, row: seq<int>): Option<seq<int>>
  {
    if vars == [] then Some([])
    else
      var i := vars[|vars| - 1];
      var pre := Emit(vars[..|vars| - 1], row);
      var c := PyAt(row, i - 1);
      if pre.None? || c.None? then None
      else Some(pre.value + Repeat(i * (if c.value > 0 then 1 else -1), Abs(c.value)))
  }

  /** `k_constraints`: the literal list of every constraint, in order. */
  function EmitAll(vars: seq<int>, table: seq<seq<int>>): (r: Option<seq<seq<int>>>)
    ensures r.Some? ==> |r.value| == |table|
  {
    if table == [] then Some([])
    else
      var pre := EmitAll(vars, table[..|table| - 1]);
      var e := Emit(vars, table[|table| - 1]);
      if pre.None? || e.None? then None else Some(pre.value + [e.value])
  }

  lemma CopiesCount(x: int, n: nat, y: int)
    ensures Count(Repeat(x, n), y) == if x == y then n else 0
  {
    if n > 0 {
      assert Repeat(x, n)[..n - 1] == Repeat(x, n - 1);
      CopiesCount(x, n - 1, y);
    }
  }

  /** Appending `n` copies of `x` adds `n` occurrences of `x` and none of anything else. */
  lemma CountCopiesAppend(out: seq<int>, x: int, n: nat, y: int)
    ensures Count(out + Repeat(x, n), y) == Count(out, y) + (if x == y then n else 0)
  {
    CountAppend(out, Repeat(x, n), y);
    CopiesCount(x, n, y);
  }

  /** With every variable of the walk in 1..|row|, a variable `v` comes out
      `row[v - 1]` times positive or `-row[v - 1]` times negative for each
      time the walk visits it, and not at all with the other sign. */
  lemma {:induction false} EmitCounts(vars: seq<int>, row: seq<int>, v: int)
    requires forall i :: 0 <= i < |vars| ==> 1 <= vars[i] <= |row|
    requires 1 <= v <= |row|
    ensures Emit(vars, row).Some?
    ensures Count(Emit(vars, row).value, v) == Count(vars, v) * (if row[v - 1] > 0 then row[v - 1] else 0)
    ensures Count(Emit(vars, row).value, -v) == Count(vars, v) * (if row[v - 1] < 0 then -row[v - 1] else 0)
  {
    if vars != [] {
      var pre, i := vars[..|vars| - 1], vars[|vars| - 1];
      EmitCounts(pre, row, v);
      var c := row[i - 1];
      var x := i * (if c > 0 then 1 else -1);
      var out := Emit(pre, row).value;
      assert Emit(vars, row) == Some(out + Repeat(x, Abs(c)));
      CountCopiesAppend(out, x, Abs(c), v);
      CountCopiesAppend(out, x, Abs(c), -v);
      var cv := row[v - 1];
      var pos := if cv > 0 then cv else 0;
      var neg := if cv < 0 then -cv else 0;
      var n := Count(pre, v);
      assert Count(vars, v) == n + (if i == v then 1 else 0);
      MulSucc(n, pos);
      MulSucc(n, neg);
    }
  }

  lemma MulSucc(n: int, k: int)
    ensures (n + 1) * k == n * k + k
  {
  }

  // ---------------------------------------------------------------------
  // The whole script

  /** A line `line.startswith("k")` holds for. */
  predicate StartsWithK(line: seq<Token>)
  {
    line != [] && line[0].Word? && |line[0].text| > 0 && line[0].text[0] == 'k'
  }

  /** `[line for line in lines if not line.startswith("k")]`. */
  function NonK(body: seq<seq<Token>>): seq<seq<Token>>
  {
    if body == [] then []
    else NonK(body[..|body| - 1]) + (if StartsWithK(body[|body| - 1]) then [] else [body[|body| - 1]])
  }

  /** `k bound l1 ... ln 0`. */
  function KLine(bound: int, lits: seq<int>): seq<Token>
  {
    [Word("k"), Num(bound)] + Nums(lits) + [Num(0)]
  }

  /** The rewritten `k` lines, bound by bound. */
  function KLines(bounds: seq<int>, ks: seq<seq<int>>): seq<seq<Token>>
  {
    if bounds == [] || ks == [] then [] else [KLine(bounds[0], ks[0])] + KLines(bounds[1..], ks[1..])
  }

  /** The printed result: constraint 0's literal list (`only_order`), or
      the header, the lines that are not `k` lines and the rewritten `k` lines. */
  datatype VigOutput = OrderLine(lits: seq<int>) | Formula(lines: seq<seq<Token>>)

  /** Step 5's output for the literal lists `ks`; None when `only_order`
      finds no constraint (`k_constraints[0]`). */
  function Render(lines: seq<seq<Token>>, onlyOrder: bool, bounds: seq<int>, ks: seq<seq<int>>): Option<VigOutput>
    requires lines != []
  {
    if onlyOrder then (if ks == [] then None else Some(OrderLine(ks[0])))
    else Some(Formula([lines[0]] + NonK(lines[1..]) + KLines(bounds, ks)))
  }

  /** What `main` prints when no output file is given: the line `Sorting`
      first with `-s`, then constraint 0's order line (`only_order`) or the
      rewritten `k` lines alone; None when `only_order` finds no constraint. */
  function Printed(sortVariables: bool, onlyOrder: bool, bounds: seq<int>, ks: seq<seq<int>>): Option<seq<seq<Token>>>
  {
    if onlyOrder && ks == [] then None
    else Some((if sortVariables then [[Word("Sorting")]] else []) + (if onlyOrder then [Nums(ks[0])] else KLines(bounds, ks)))
  }

  /** With `-s` the printed ordering starts with the word `Sorting`, so a
      caller that reads it as an ordering file (`graphOcc` in
      order_and_encode.py) refuses it, whatever the number of variables. */
  lemma SortingRefused(onlyOrder: bool, bounds: seq<int>, ks: seq<seq<int>>, n: nat)
    requires Printed(true, onlyOrder, bounds, ks).Some?
    ensures !LiteralOrder.Acceptable(Flatten(Printed(true, onlyOrder, bounds, ks).value), n)
  {
    var p := Printed(true, onlyOrder, bounds, ks).value;
    assert p == [[Word("Sorting")]] + p[1..];
    FlattenConcat([[Word("Sorting")]], p[1..]);
    assert Flatten([[Word("Sorting")]]) == [Word("Sorting")] by {
      assert [[Word("Sorting")]][..0] == [];
    }
    assert Flatten(p)[0] == Word("Sorting");
  }

  /** The intermediate values of `main`, recorded with the output file and
      what is printed. */
  datatype VigOutcome = VigOutcome(
    parsed: Parsed, graph: Graph, passes: nat, best: seq<Partition>,
    chosen: Partition, groups: Partition, emitted: seq<seq<int>>, output: VigOutput, printed: seq<seq<Token>>)

  /** Steps 3 and 4: the retained partitions of the passes that ran, the
      selected one, and its groups after the optional sort. */
  ghost predicate Grouped(g: Graph, p: Parsed, sortVariables: bool, iteration: int,
                          stop: nat -> bool, louvain: (Graph, nat) -> Partition,
                          passes: nat, best: seq<Partition>, chosen: Partition, groups: Partition)
  {
    RanPasses(iteration, stop, passes)
    && best == Kept(Runs(g, louvain, passes))
    && best != [] && |best[0]| > 0
    && Chosen(best, p.total / |best[0]|, chosen)
    && (if sortVariables then SortGroups(chosen, p.occ) == Ok(groups) else groups == chosen)
  }

  /** Every step of `main` produced the recorded value from the one before. */
  ghost predicate Realised(lines: seq<seq<Token>>, sortVariables: bool, onlyOrder: bool, iteration: int,
                           stop: nat -> bool, louvain: (Graph, nat) -> Partition, o: VigOutcome)
  {
    lines != []
    && ParsedFrom(lines, o.parsed)
    && o.graph == GraphOf(o.parsed.clauses, o.parsed.total)
    && Grouped(o.graph, o.parsed, sortVariables, iteration, stop, louvain, o.passes, o.best, o.chosen, o.groups)
    && EmitAll(Flatten(o.groups), o.parsed.table) == Some(o.emitted)
    && Render(lines, onlyOrder, o.parsed.bounds, o.emitted) == Some(o.output)
    && Printed(sortVariables, onlyOrder, o.parsed.bounds, o.emitted) == Some(o.printed)
  }

  /** Step 4's optional `sort_variables` loop on the selected partition. */
  method SortChosen(chosen: Partition, sortVariables: bool, occ: map<int, nat>) returns (r: Result<Partition, VigError>)
    ensures r.Err? <==> sortVariables && !AllCounted(chosen, occ)
    ensures r.Err? ==> r.error == MissingCount
    ensures r.Ok? ==> if sortVariables then SortGroups(chosen, occ) == Ok(r.value) else r.value == chosen
  {
    if !sortVariables {
      return Ok(chosen);
    }
    r := SortGroups(chosen, occ);
  }

  /** Why step 4 fails on the retained partitions `best`: none at all, an
      empty first one (`total_num_vars // 0`), or, with `-s`, a variable of
      the selected partition that has no occurrence count. */
  ghost predicate SelectFails(best: seq<Partition>, p: Parsed, sortVariables: bool, e: VigError)
  {
    if best == [] then e == NoCommunities
    else if |best[0]| == 0 then e == EmptyPartition
    else
      && e == MissingCount && sortVariables
      && exists chosen :: Chosen(best, p.total / |best[0]|, chosen) && !AllCounted(chosen, p.occ)
  }

  /** Step 4 gets through the retained partitions `best`. */
  ghost predicate SelectSucceeds(best: seq<Partition>, p: Parsed, sortVariables: bool)
  {
    && best != [] && |best[0]| > 0
    && (sortVariables ==> forall chosen :: Chosen(best, p.total / |best[0]|, chosen) ==> AllCounted(chosen, p.occ))
  }

  /** Why steps 3 and 4 fail, in terms of the passes that ran. */
  ghost predicate GroupFails(g: Graph, p: Parsed, sortVariables: bool, iteration: int, stop: nat -> bool,
                             louvain: (Graph, nat) -> Partition, e: VigError)
  {
    exists n :: RanPasses(iteration, stop, n) && SelectFails(Kept(Runs(g, louvain, n)), p, sortVariables, e)
  }

  /** Steps 3 and 4 get through. */
  ghost predicate GroupSucceeds(g: Graph, p: Parsed, sortVariables: bool, iteration: int, stop: nat -> bool,
                                louvain: (Graph, nat) -> Partition)
  {
    forall n :: RanPasses(iteration, stop, n) ==> SelectSucceeds(Kept(Runs(g, louvain, n)), p, sortVariables)
  }

  /** Steps 2 to 4 on a parsed formula. */
  method Group(p: Parsed, sortVariables: bool, iteration: int, stop: nat -> bool, louvain: (Graph, nat) -> Partition)
    returns (g: Graph, r: Result<(nat, seq<Partition>, Partition, Partition), VigError>)
    ensures g == GraphOf(p.clauses, p.total)
    ensures r == Err(NoCommunities) <==> iteration <= 0 || stop(0)
    ensures r.Err? ==> r.error.NoCommunities? || r.error.EmptyPartition? || r.error.MissingCount?
    ensures r.Err? ==> GroupFails(g, p, sortVariables, iteration, stop, louvain, r.error)
    ensures GroupSucceeds(g, p, sortVariables, iteration, stop, louvain) ==> r.Ok?
    ensures r.Ok? ==> Grouped(g, p, sortVariables, iteration, stop, louvain, r.value.0, r.value.1, r.value.2, r.value.3)
  {
    g := BuildGraph(p.clauses, p.total);
    var best, passes := Communities(g, iteration, stop, louvain);
    KeptNonEmpty(Runs(g, louvain, passes));
    NoPasses(iteration, stop, passes);
    var sel := Select(best, p.total);
    if sel.Err? {
      assert SelectFails(best, p, sortVariables, sel.error);
      return g, Err(sel.error);
    }
    var chosen := sel.value;
    var sg := SortChosen(chosen, sortVariables, p.occ);
    if sg.Err? {
      assert SelectFails(best, p, sortVariables, sg.error);
      return g, Err(sg.error);
    }
    var groups := sg.value;
    return g, Ok((passes, best, chosen, groups));
  }

  /** Why step 5 fails on the final groups: a variable past the end of a
      constraint's row (`BadIndex`), or `only_order` with no constraint. */
  predicate EmitFails(onlyOrder: bool, p: Parsed, groups: Partition, e: VigError)
  {
    var ks := EmitAll(Flatten(groups), p.table);
    if ks.None? then e == BadIndex else onlyOrder && ks.value == [] && e == NoConstraint
  }

  /** Why `main` fails: the header, a line of either pass, steps 3 and 4, or step 5. */
  ghost predicate VigFails(lines: seq<seq<Token>>, sortVariables: bool, onlyOrder: bool, iteration: int,
                           stop: nat -> bool, louvain: (Graph, nat) -> Partition, e: VigError)
  {
    if HeaderTotal(lines).None? then e == BadHeader
    else if !Parsable(lines) then e.EmptyLine? || e.BadClause? || e.BadConstraint?
    else
      exists p :: ParsedFrom(lines, p) && StepsFail(lines, p, sortVariables, onlyOrder, iteration, stop, louvain, e)
  }

  /** Why steps 2 to 5 fail on a parsed formula. */
  ghost predicate StepsFail(lines: seq<seq<Token>>, p: Parsed, sortVariables: bool, onlyOrder: bool, iteration: int,
                            stop: nat -> bool, louvain: (Graph, nat) -> Partition, e: VigError)
  {
    var g := GraphOf(p.clauses, p.total);
    || GroupFails(g, p, sortVariables, iteration, stop, louvain, e)
    || exists passes, best, chosen, groups ::
         Grouped(g, p, sortVariables, iteration, stop, louvain, passes, best, chosen, groups)
         && EmitFails(onlyOrder, p, groups, e)
  }

  /** `main` gets through every step. */
  ghost predicate VigSucceeds(lines: seq<seq<Token>>, sortVariables: bool, onlyOrder: bool, iteration: int,
                              stop: nat -> bool, louvain: (Graph, nat) -> Partition)
  {
    Parsable(lines) && forall p :: ParsedFrom(lines, p) ==> StepsSucceed(p, sortVariables, onlyOrder, iteration, stop, louvain)
  }

  /** Steps 2 to 5 get through on a parsed formula. */
  ghost predicate StepsSucceed(p: Parsed, sortVariables: bool, onlyOrder: bool, iteration: int,
                               stop: nat -> bool, louvain: (Graph, nat) -> Partition)
  {
    var g := GraphOf(p.clauses, p.total);
    && GroupSucceeds(g, p, sortVariables, iteration, stop, louvain)
    && forall passes, best, chosen, groups ::
         Grouped(g, p, sortVariables, iteration, stop, louvain, passes, best, chosen, groups)
         ==> !EmitFails(onlyOrder, p, groups, BadIndex) && !EmitFails(onlyOrder, p, groups, NoConstraint)
  }

  /** `main` with `sort_variables`, `only_order`, `iteration`, the timeout
      test `stop` and Louvain as parameters. */
  method VigOrder(lines: seq<seq<Token>>, sortVariables: bool, onlyOrder: bool, iteration: int,
                  stop: nat -> bool, louvain: (Graph, nat) -> Partition)
    returns (r: Result<VigOutcome, VigError>)
    ensures r == Err(BadHeader) <==> HeaderTotal(lines).None?
    ensures !Parsable(lines) ==>
      r.Err? && (r.error.BadHeader? || r.error.EmptyLine? || r.error.BadClause? || r.error.BadConstraint?)
    ensures Parsable(lines) ==> (r == Err(NoCommunities) <==> iteration <= 0 || stop(0))
    ensures r.Ok? ==> Parsable(lines) && Realised(lines, sortVariables, onlyOrder, iteration, stop, louvain, r.value)
    ensures r.Err? ==> VigFails(lines, sortVariables, onlyOrder, iteration, stop, louvain, r.error)
    ensures VigSucceeds(lines, sortVariables, onlyOrder, iteration, stop, louvain) ==> r.Ok?
  {
    var pr := ParseVig(lines);
    if pr.Err? {
      return Err(pr.error);
    }
    var parsed := pr.value;
    var g, gr := Group(parsed, sortVariables, iteration, stop, louvain);
    if gr.Err? {
      return Err(gr.error);
    }
    var (passes, best, chosen, groups) := gr.value;
    var ks := EmitAll(Flatten(groups), parsed.table);
    if ks.None? {
      assert EmitFails(onlyOrder, parsed, groups, BadIndex);
      return Err(BadIndex);
    }
    var output := Render(lines, onlyOrder, parsed.bounds, ks.value);
    if output.None? {
      assert EmitFails(onlyOrder, parsed, groups, NoConstraint);
      return Err(NoConstraint);
    }
    var printed := Printed(sortVariables, onlyOrder, parsed.bounds, ks.value);
    return Ok(VigOutcome(parsed, g, passes, best, chosen, groups, ks.value, output.value, printed.value));
  }
}
