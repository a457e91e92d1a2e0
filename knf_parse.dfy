/** Reading a KNF formula (tools/order_and_encode.py): the line classifier of
    `parse_knf`, the projection of the hard clauses onto the constrained
    variables with its occurrence index, and the coverage curve of an ordering. */
module KnfParse {
  import opened Wrappers
  import opened Common
  import opened Sorting
  import opened LiteralOrder

  /** No line makes `int()` or `tokens[1]` raise. */
  ghost predicate WellFormed(lines: seq<seq<Token>>)
  {
    forall i :: 0 <= i < |lines| ==> !ClassifyLine(lines[i]).Malformed?
  }

  /** The `(bound, literals)` pairs of the lines, in file order. */
  function Klauses(lines: seq<seq<Token>>): seq<Klause>
  {
    if lines == [] then []
    else
      Klauses(lines[..|lines| - 1]) +
      match ClassifyLine(lines[|lines| - 1])
      case Card(b, ls) => [Klause(b, ls)]
      case Plain(ls) => [Klause(1, ls)]
      case _ => []
  }

  /** The variables of the literals of the `k` lines. */
  function SoftVars(lines: seq<seq<Token>>): set<int>
  {
    if lines == [] then {}
    else
      SoftVars(lines[..|lines| - 1]) +
      match ClassifyLine(lines[|lines| - 1])
      case Card(_, ls) => set i | 0 <= i < |ls| :: Abs(ls[i])
      case _ => {}
  }

  /** Soft variables are absolute values. */
  lemma {:induction false} SoftVarsNonnegative(lines: seq<seq<Token>>)
    ensures forall v :: v in SoftVars(lines) ==> v >= 0
  {
    if lines != [] {
      SoftVarsNonnegative(lines[..|lines| - 1]);
    }
  }

  /** Each line contributes its own pair, after those of the lines before it. */
  lemma {:induction false} KlausesConcat(a: seq<seq<Token>>, b: seq<seq<Token>>)
    ensures Klauses(a + b) == Klauses(a) + Klauses(b)
  {
    if b == [] {
      assert a + b == a;
    } else {
      assert (a + b)[..|a + b| - 1] == a + b[..|b| - 1];
      KlausesConcat(a, b[..|b| - 1]);
    }
  }

  /** A `k` line gives `(int(tokens[1]), tokens[2:-1])`, any other kept line
      gives `(1, tokens[:-1])`, and empty, `p` and `c` lines give nothing. */
  lemma KlausesOfLine(line: seq<Token>)
    requires !ClassifyLine(line).Malformed?
    ensures line == [] || line[0] == Word("p") || line[0] == Word("c") ==> Klauses([line]) == []
    ensures line != [] && line[0] == Word("k") ==>
      |line| >= 2 && line[1].Num? && AllNum(Middle(line)) && Klauses([line]) == [Klause(line[1].value, Values(Middle(line)))]
    ensures line != [] && line[0] !in {Word("p"), Word("c"), Word("k")} ==>
      AllNum(DropLast(line)) && Klauses([line]) == [Klause(1, Values(DropLast(line)))]
  {
    assert [line][..0] == [];
  }

  datatype ParseError = BadLine(line: nat)

  /** `parse_knf`: one pair per kept line and the set of constrained variables
      (`parse_knf` returns that set as a list, in Python's unspecified set order). The first
      line that fails to convert aborts the parse. */
  method ParseKnf(lines: seq<seq<Token>>) returns (r: Result<(seq<Klause>, set<int>), ParseError>)
    ensures r.Ok? <==> WellFormed(lines)
    ensures r.Ok? ==> r.value.0 == Klauses(lines) && r.value.1 == SoftVars(lines)
    ensures r.Err? ==> r.error.line < |lines| && ClassifyLine(lines[r.error.line]).Malformed? && WellFormed(lines[..r.error.line])
  {
    var klauses: seq<Klause> := [];
    var soft: set<int> := {};
    var i := 0;
    while i < |lines|
      invariant 0 <= i <= |lines|
      invariant WellFormed(lines[..i])
      invariant klauses == Klauses(lines[..i]) && soft == SoftVars(lines[..i])
    {
      ParseKnfStep(lines, i);
      match ClassifyLine(lines[i]) {
        case Malformed =>
          return Err(BadLine(i));
        case Skipped =>
        case Card(bound, lits) =>
          klauses := klauses + [Klause(bound, lits)];
          soft := soft + set j | 0 <= j < |lits| :: Abs(lits[j]);
        case Plain(lits) =>
          klauses := klauses + [Klause(1, lits)];
      }
      i := i + 1;
    }
    assert lines[..i] == lines;
    return Ok((klauses, soft));
  }

  /** One more line of `parse_knf`: its pair and its variables follow those of the lines before. */
  lemma ParseKnfStep(lines: seq<seq<Token>>, i: nat)
    requires i < |lines|
    ensures WellFormed(lines[..i + 1]) <==> WellFormed(lines[..i]) && !ClassifyLine(lines[i]).Malformed?
    ensures ClassifyLine(lines[i]).Card? ==> var ls := ClassifyLine(lines[i]).lits;
      Klauses(lines[..i + 1]) == Klauses(lines[..i]) + [Klause(ClassifyLine(lines[i]).bound, ls)]
      && SoftVars(lines[..i + 1]) == SoftVars(lines[..i]) + set j | 0 <= j < |ls| :: Abs(ls[j])
    ensures ClassifyLine(lines[i]).Plain? ==>
      Klauses(lines[..i + 1]) == Klauses(lines[..i]) + [Klause(1, ClassifyLine(lines[i]).lits)]
      && SoftVars(lines[..i + 1]) == SoftVars(lines[..i])
    ensures ClassifyLine(lines[i]).Skipped? ==>
      Klauses(lines[..i + 1]) == Klauses(lines[..i]) && SoftVars(lines[..i + 1]) == SoftVars(lines[..i])
  {
    assert lines[..i + 1][..i] == lines[..i];
  }

  /** The standard clause `lits` projected onto the soft variables: the absolute
      values in `soft`, in order, repetitions kept. */
  function Project(lits: seq<int>, soft: set<int>): (r: seq<int>)
    ensures forall u :: u in r ==> u in soft && u >= 0
    ensures forall l :: l in lits && Abs(l) in soft ==> Abs(l) in r
  {
    if lits == [] then []
    else
      var r0 := Project(lits[..|lits| - 1], soft);
      var l := lits[|lits| - 1];
      assert forall x :: x in lits ==> x in lits[..|lits| - 1] || x == l;
      if Abs(l) in soft then r0 + [Abs(l)] else r0
  }

  /** A standard line that `parse_knf_remove_soft` fails to convert
      (`k` lines are skipped unread). */
  predicate HardBad(line: seq<Token>)
  {
    ClassifyLine(line).Malformed? && !(line != [] && line[0] == Word("k"))
  }

  ghost predicate HardWellFormed(lines: seq<seq<Token>>)
  {
    forall i :: 0 <= i < |lines| ==> !HardBad(lines[i])
  }

  /** The clause a line keeps: a standard clause projected onto `soft`, or
      nothing when the projection is empty or the line is not a standard clause. */
  function KeptOf(line: seq<Token>, soft: set<int>): seq<seq<int>>
  {
    match ClassifyLine(line)
    case Plain(ls) => if Project(ls, soft) != [] then [Project(ls, soft)] else []
    case _ => []
  }

  /** The kept clauses of the lines, in file order. */
  function Projected(lines: seq<seq<Token>>, soft: set<int>): seq<seq<int>>
  {
    if lines == [] then [] else Projected(lines[..|lines| - 1], soft) + KeptOf(lines[|lines| - 1], soft)
  }

  /** The indices of the clauses containing `v`, ascending, an index repeated
      once per occurrence of `v` in its clause. */
  function OccIndex(cls: seq<seq<int>>, v: int): seq<nat>
  {
    if cls == [] then [] else OccIndex(cls[..|cls| - 1], v) + Repeat<nat>(|cls| - 1, Count(cls[|cls| - 1], v))
  }

  /** An index occurs in `OccIndex(cls, v)` exactly when its clause contains `v`. */
  lemma {:induction false} OccIndexMembers(cls: seq<seq<int>>, v: int, j: int)
    ensures j in OccIndex(cls, v) <==> 0 <= j < |cls| && v in cls[j]
  {
    if cls != [] {
      var n := |cls| - 1;
      OccIndexMembers(cls[..n], v, j);
      CountPositive(cls[n], v);
      var rep := Repeat<nat>(n, Count(cls[n], v));
      assert j in rep <==> j == n && Count(cls[n], v) > 0 by {
        if j == n && Count(cls[n], v) > 0 { assert rep[0] == n; }
      }
      if j < n && 0 <= j { assert cls[..n][j] == cls[j]; }
    }
  }

  /** `OccIndex` lists indices in ascending order. */
  lemma {:induction false} OccIndexSorted(cls: seq<seq<int>>, v: int)
    ensures forall a, b :: 0 <= a < b < |OccIndex(cls, v)| ==> OccIndex(cls, v)[a] <= OccIndex(cls, v)[b]
    ensures forall a :: 0 <= a < |OccIndex(cls, v)| ==> OccIndex(cls, v)[a] < |cls|
  {
    if cls != [] {
      var n := |cls| - 1;
      OccIndexSorted(cls[..n], v);
    }
  }

  /** The occurrence map `occs` of a clause list: `v` has an entry exactly when
      some clause contains it, and the entry is `OccIndex`. */
  ghost predicate IsOccMap(occs: map<int, seq<nat>>, cls: seq<seq<int>>)
  {
    forall v :: (v in occs <==> OccIndex(cls, v) != []) && (v in occs ==> occs[v] == OccIndex(cls, v))
  }

  /** `parse_knf_remove_soft`: the kept clauses are non-empty lists of soft
      variables, and `occs[v]` lists in order the kept clauses containing v. */
  method ParseKnfRemoveSoft(lines: seq<seq<Token>>, soft: set<int>)
    returns (r: Result<(seq<seq<int>>, map<int, seq<nat>>), ParseError>)
    ensures r.Ok? <==> HardWellFormed(lines)
    ensures r.Ok? ==> r.value.0 == Projected(lines, soft) && IsOccMap(r.value.1, r.value.0)
    ensures r.Ok? ==> forall j :: 0 <= j < |r.value.0| ==> r.value.0[j] != [] && forall u :: u in r.value.0[j] ==> u in soft && u >= 0
    ensures r.Err? ==> r.error.line < |lines| && HardWellFormed(lines[..r.error.line]) && HardBad(lines[r.error.line])
  {
    var clauses: seq<seq<int>> := [];
    var occs: map<int, seq<nat>> := map[];
    var i := 0;
    while i < |lines|
      invariant 0 <= i <= |lines|
      invariant HardWellFormed(lines[..i])
      invariant clauses == Projected(lines[..i], soft) && IsOccMap(occs, clauses)
    {
      RemoveSoftStep(lines, i, soft);
      if HardBad(lines[i]) {
        return Err(BadLine(i));
      }
      clauses, occs := KeepLine(clauses, occs, KeptOf(lines[i], soft));
      i := i + 1;
    }
    assert lines[..i] == lines;
    ProjectedClauses(lines, soft);
    return Ok((clauses, occs));
  }

  /** `clauses.append(kept)` and the `occs` updates, for a line that keeps a clause. */
  method KeepLine(clauses: seq<seq<int>>, occs: map<int, seq<nat>>, kept: seq<seq<int>>)
    returns (clauses': seq<seq<int>>, occs': map<int, seq<nat>>)
    requires IsOccMap(occs, clauses) && |kept| <= 1
    ensures clauses' == clauses + kept && IsOccMap(occs', clauses')
  {
    clauses', occs' := clauses, occs;
    if kept != [] {
      occs' := AddOccurrences(clauses, occs, kept[0]);
      assert kept == [kept[0]];
      clauses' := clauses + kept;
    }
  }

  lemma RemoveSoftStep(lines: seq<seq<Token>>, i: nat, soft: set<int>)
    requires i < |lines|
    ensures Projected(lines[..i + 1], soft) == Projected(lines[..i], soft) + KeptOf(lines[i], soft)
    ensures HardWellFormed(lines[..i + 1]) <==> HardWellFormed(lines[..i]) && !HardBad(lines[i])
  {
    assert lines[..i + 1][..i] == lines[..i];
    HardWellFormedStep(lines, i);
  }

  lemma HardWellFormedStep(lines: seq<seq<Token>>, i: nat)
    requires i < |lines|
    ensures HardWellFormed(lines[..i + 1]) <==> HardWellFormed(lines[..i]) && !HardBad(lines[i])
  {
    var p := lines[..i + 1];
    assert forall k :: 0 <= k < i ==> p[k] == lines[..i][k];
    assert p[i] == lines[i];
  }

  /** Every kept clause is a non-empty list of soft variables. */
  lemma {:induction false} ProjectedClauses(lines: seq<seq<Token>>, soft: set<int>)
    ensures forall j :: 0 <= j < |Projected(lines, soft)| ==>
      Projected(lines, soft)[j] != [] && forall u :: u in Projected(lines, soft)[j] ==> u in soft && u >= 0
  {
    if lines != [] {
      ProjectedClauses(lines[..|lines| - 1], soft);
    }
  }

  /** The loop `for v in literals: occs[v].append(len(clauses) - 1)` after the
      clause `lits` is appended. */
  method AddOccurrences(clauses: seq<seq<int>>, occs: map<int, seq<nat>>, lits: seq<int>)
    returns (occs': map<int, seq<nat>>)
    requires IsOccMap(occs, clauses)
    ensures IsOccMap(occs', clauses + [lits])
  {
    var n := |clauses|;
    occs' := occs;
    var k := 0;
    assert lits[..0] == [];
    assert PendingMap(occs', clauses, lits[..0]);
    while k < |lits|
      invariant 0 <= k <= |lits|
      invariant PendingMap(occs', clauses, lits[..k])
    {
      var v := lits[k];
      ghost var pre := occs';
      if v !in occs' {
        occs' := occs'[v := [n]];
      } else {
        occs' := occs'[v := occs'[v] + [n]];
      }
      PendingMapStep(pre, clauses, lits, k);
      k := k + 1;
    }
    assert lits[..k] == lits;
    forall u ensures OccIndex(clauses + [lits], u) == Pending(clauses, lits, u) {
      PendingDone(clauses, lits, u);
    }
  }

  /** Once every literal is done, the pending lists are those of the longer formula. */
  lemma PendingDone(clauses: seq<seq<int>>, lits: seq<int>, u: int)
    ensures OccIndex(clauses + [lits], u) == Pending(clauses, lits, u)
  {
    assert (clauses + [lits])[..|clauses|] == clauses;
  }

  /** The occurrence lists after the first `|done|` literals of a new clause. */
  ghost function Pending(clauses: seq<seq<int>>, done: seq<int>, v: int): seq<nat>
  {
    OccIndex(clauses, v) + Repeat<nat>(|clauses|, Count(done, v))
  }

  /** `occs` holds exactly the non-empty pending lists. */
  ghost predicate PendingMap(occs: map<int, seq<nat>>, clauses: seq<seq<int>>, done: seq<int>)
  {
    forall v :: (v in occs <==> Pending(clauses, done, v) != []) && (v in occs ==> occs[v] == Pending(clauses, done, v))
  }

  /** One appended index keeps the map in step with the pending lists. */
  lemma PendingMapStep(occs: map<int, seq<nat>>, clauses: seq<seq<int>>, lits: seq<int>, k: nat)
    requires k < |lits| && PendingMap(occs, clauses, lits[..k])
    ensures PendingMap(if lits[k] !in occs then occs[lits[k] := [|clauses|]]
                       else occs[lits[k] := occs[lits[k]] + [|clauses|]], clauses, lits[..k + 1])
  {
    forall u {
      PendingStep(clauses, lits, k, u);
    }
  }

  lemma PendingStep(clauses: seq<seq<int>>, lits: seq<int>, k: nat, u: int)
    requires k < |lits|
    ensures Pending(clauses, lits[..k + 1], u) ==
      Pending(clauses, lits[..k], u) + (if u == lits[k] then [|clauses|] else [])
  {
    assert lits[..k + 1][..k] == lits[..k];
    var c := Count(lits[..k], u);
    assert Repeat(|clauses|, c + 1) == Repeat(|clauses|, c) + [|clauses|];
  }

  /** Every variable of clause `c` is among `vs`. */
  ghost predicate AllIn(c: seq<int>, vs: seq<int>)
  {
    forall u :: u in c ==> u in vs
  }

  /** The indices of the clauses whose variables are all among `vs`. */
  ghost function Covered(cls: seq<seq<int>>, vs: seq<int>): set<nat>
  {
    set j: nat | j < |cls| && AllIn(cls[j], vs)
  }

  /** The variables of a clause, all known to be non-negative and below `n`,
      are all marked in `seen`; a variable at or above the length of `seen`
      raises IndexError (ok false) unless an unmarked one comes before it. */
  method ClauseSeen(c: seq<int>, seen: array<int>) returns (ok: bool, all: bool)
    requires forall k :: 0 <= k < |c| ==> c[k] >= 0
    ensures ok ==> (all <==> forall k :: 0 <= k < |c| ==> c[k] < seen.Length && seen[c[k]] != 0)
    ensures !ok ==> exists k :: 0 <= k < |c| && c[k] >= seen.Length
  {
    var k := 0;
    while k < |c|
      invariant 0 <= k <= |c|
      invariant forall j :: 0 <= j < k ==> c[j] < seen.Length && seen[c[j]] != 0
    {
      if c[k] >= seen.Length {
        return false, false;
      }
      if seen[c[k]] == 0 {
        return true, false;
      }
      k := k + 1;
    }
    return true, true;
  }

  datatype CoverageError = UnrankedSoft | SoftAboveMaxVar

  /** The coverage statistic of `print_coverage`. The soft variables are taken
      in rank order; entry i of the curve is the number of kept clauses all of
      whose variables are among the first i of them, and a last entry follows
      for all of them. A soft variable above `max_var` raises IndexError. */
  method Coverage(order: seq<int>, soft: seq<int>, clauses: seq<seq<int>>, occs: map<int, seq<nat>>, maxVar: int)
    returns (r: Result<seq<nat>, CoverageError>)
    requires forall i :: 0 <= i < |soft| ==> soft[i] >= 0
    requires forall j :: 0 <= j < |clauses| ==> clauses[j] != [] && forall u :: u in clauses[j] ==> u in soft
    requires IsOccMap(occs, clauses)
    ensures r.Ok? <==> SortLiterals(soft, order).Some? && forall i :: 0 <= i < |soft| ==> soft[i] <= maxVar
    ensures r.Ok? ==>
      var shuff := SortLiterals(soft, order).value;
      |r.value| == |soft| + 1 && |shuff| == |soft| &&
      forall i :: 0 <= i <= |soft| ==> r.value[i] == |Covered(clauses, shuff[..i])|
  {
    var sorted := SortLiterals(soft, order);
    if sorted.None? {
      return Err(UnrankedSoft);
    }
    var shuff := sorted.value;
    SortLiteralsMembers(soft, order);
    assert forall u :: u in shuff ==> u in soft;
    assert forall u :: u in soft ==> u in shuff;
    assert forall t :: 0 <= t < |shuff| ==> shuff[t] >= 0 by {
      forall t | 0 <= t < |shuff| ensures shuff[t] >= 0 {
        assert shuff[t] in shuff;
      }
    }
    var n := if maxVar + 1 > 0 then maxVar + 1 else 0;
    var curve := CoverageCurve(shuff, clauses, occs, n);
    if curve.None? {
      ghost var t :| 0 <= t < |shuff| && shuff[t] >= n;
      assert shuff[t] in soft;
      return Err(SoftAboveMaxVar);
    }
    assert forall k :: 0 <= k < |soft| ==> soft[k] <= maxVar by {
      forall k | 0 <= k < |soft| ensures soft[k] <= maxVar {
        assert soft[k] in shuff;
      }
    }
    return Ok(curve.value);
  }

  /** The main loop of `print_coverage` over the ranked soft variables
      `shuff`, with `lit_seen` of length `n`. */
  method CoverageCurve(shuff: seq<int>, clauses: seq<seq<int>>, occs: map<int, seq<nat>>, n: nat)
    returns (r: Option<seq<nat>>)
    requires forall t :: 0 <= t < |shuff| ==> shuff[t] >= 0
    requires forall j :: 0 <= j < |clauses| ==> clauses[j] != [] && forall u :: u in clauses[j] ==> u in shuff
    requires IsOccMap(occs, clauses)
    ensures r.Some? <==> forall t :: 0 <= t < |shuff| ==> shuff[t] < n
    ensures r.Some? ==> |r.value| == |shuff| + 1 && forall i :: 0 <= i <= |shuff| ==> r.value[i] == |Covered(clauses, shuff[..i])|
  {
    var litSeen := new int[n](_ => 0);
    var clsDone: set<nat> := {};
    var nCov := 0;
    var curve: seq<nat> := [];
    CoverageStart(clauses);
    assert shuff[..0] == [];
    var i := 0;
    while i < |shuff|
      invariant 0 <= i <= |shuff|
      invariant |curve| == i && forall t :: 0 <= t < i ==> curve[t] == |Covered(clauses, shuff[..t])|
      invariant clsDone == Covered(clauses, shuff[..i]) && nCov == |clsDone|
      invariant forall u :: 0 <= u < n ==> (litSeen[u] != 0 <==> u in shuff[..i])
      invariant forall u :: u in shuff[..i] ==> u < n
    {
      var v := shuff[i];
      if v >= n {
        assert shuff[i] in shuff[..i + 1];
        return None;
      }
      ghost var before := shuff[..i];
      assert shuff[..i + 1] == before + [v];
      curve := curve + [nCov];
      var ok;
      ok, clsDone, nCov := CoverVar(clauses, occs, litSeen, before, v, clsDone, nCov);
      if !ok {
        ghost var j, k :| 0 <= j < |clauses| && 0 <= k < |clauses[j]| && clauses[j][k] >= n;
        assert clauses[j][k] in clauses[j];
        ghost var t :| 0 <= t < |shuff| && shuff[t] == clauses[j][k];
        if t <= i {
          assert shuff[t] in shuff[..i + 1];
        }
        return None;
      }
      i := i + 1;
    }
    assert shuff[..i] == shuff;
    assert forall t :: 0 <= t < |shuff| ==> shuff[t] < n by {
      forall t | 0 <= t < |shuff| ensures shuff[t] < n {
        assert shuff[t] in shuff[..i];
      }
    }
    return Some(curve + [nCov]);
  }

  /** One pass of that loop: mark `v` seen and count the clauses of `occs[v]`
      it completes. */
  method CoverVar(clauses: seq<seq<int>>, occs: map<int, seq<nat>>, litSeen: array<int>, ghost before: seq<int>, v: int,
                  clsDone: set<nat>, nCov: nat)
    returns (ok: bool, clsDone': set<nat>, nCov': nat)
    modifies litSeen
    requires 0 <= v < litSeen.Length
    requires forall u :: 0 <= u < litSeen.Length ==> (litSeen[u] != 0 <==> u in before)
    requires forall u :: u in before ==> 0 <= u < litSeen.Length
    requires forall j :: 0 <= j < |clauses| ==> forall u :: u in clauses[j] ==> u >= 0
    requires IsOccMap(occs, clauses)
    requires clsDone == Covered(clauses, before) && nCov == |clsDone|
    ensures forall u :: 0 <= u < litSeen.Length ==> (litSeen[u] != 0 <==> u in before + [v])
    ensures ok ==> clsDone' == Covered(clauses, before + [v]) && nCov' == |clsDone'|
    ensures !ok ==> exists j, k :: 0 <= j < |clauses| && 0 <= k < |clauses[j]| && clauses[j][k] >= litSeen.Length
  {
    litSeen[v] := 1;
    ghost var after := before + [v];
    assert forall u :: u in after ==> u in before || u == v;
    CoveredStep(clauses, occs, before, v);
    if v !in occs {
      return true, clsDone, nCov;
    }
    OccIndexSorted(clauses, v);
    ok, clsDone', nCov' := MarkCovered(clauses, occs[v], litSeen, after, clsDone, nCov);
  }

  /** The loop over `occs[v]` of `print_coverage`: each listed clause not yet
      counted is counted when all its variables are marked in `seen`. A
      variable past the end of `seen` raises IndexError (ok false). */
  method MarkCovered(clauses: seq<seq<int>>, lst: seq<nat>, seen: array<int>, ghost marked: seq<int>, done: set<nat>, nCov: nat)
    returns (ok: bool, done': set<nat>, nCov': nat)
    requires forall t :: 0 <= t < |lst| ==> lst[t] < |clauses|
    requires forall j :: 0 <= j < |clauses| ==> forall u :: u in clauses[j] ==> u >= 0
    requires forall u :: u in marked ==> 0 <= u < seen.Length
    requires forall u :: 0 <= u < seen.Length ==> (seen[u] != 0 <==> u in marked)
    requires nCov == |done|
    ensures ok ==> done' == done + NewlyCovered(clauses, lst, marked) && nCov' == |done'|
    ensures !ok ==> exists j, k :: 0 <= j < |clauses| && 0 <= k < |clauses[j]| && clauses[j][k] >= seen.Length
  {
    done', nCov' := done, nCov;
    var t := 0;
    while t < |lst|
      invariant 0 <= t <= |lst|
      invariant done' == done + NewlyCovered(clauses, lst[..t], marked) && nCov' == |done'|
    {
      var cid := lst[t];
      NewlyCoveredStep(clauses, lst, marked, t);
      ok, done', nCov' := TryCover(clauses[cid], cid, seen, marked, done', nCov');
      if !ok {
        return;
      }
      t := t + 1;
    }
    assert lst[..t] == lst;
    ok := true;
  }

  lemma NewlyCoveredStep(cls: seq<seq<int>>, lst: seq<nat>, vs: seq<int>, t: nat)
    requires t < |lst| && lst[t] < |cls|
    ensures NewlyCovered(cls, lst[..t + 1], vs)
      == NewlyCovered(cls, lst[..t], vs) + (if AllIn(cls[lst[t]], vs) then {lst[t]} else {})
  {
    assert lst[..t + 1] == lst[..t] + [lst[t]];
  }

  /** One clause of that loop: counted unless already counted or some
      variable is unmarked. */
  method TryCover(c: seq<int>, cid: nat, seen: array<int>, ghost marked: seq<int>, done: set<nat>, nCov: nat)
    returns (ok: bool, done': set<nat>, nCov': nat)
    requires forall u :: u in c ==> u >= 0
    requires forall u :: u in marked ==> 0 <= u < seen.Length
    requires forall u :: 0 <= u < seen.Length ==> (seen[u] != 0 <==> u in marked)
    requires nCov == |done|
    ensures ok ==> done' == (if AllIn(c, marked) then done + {cid} else done) && nCov' == |done'|
    ensures !ok ==> exists k :: 0 <= k < |c| && c[k] >= seen.Length
  {
    if cid in done {
      return true, done, nCov;
    }
    assert forall k :: 0 <= k < |c| ==> c[k] in c;
    var all;
    ok, all := ClauseSeen(c, seen);
    if !ok {
      return false, done, nCov;
    }
    assert all <==> AllIn(c, marked) by {
      if AllIn(c, marked) {
        assert forall k :: 0 <= k < |c| ==> c[k] in marked;
      }
    }
    if all {
      return true, done + {cid}, nCov + 1;
    }
    return true, done, nCov;
  }

  /** The clauses listed in `lst` whose variables are all among `vs`. */
  ghost function NewlyCovered(cls: seq<seq<int>>, lst: seq<nat>, vs: seq<int>): set<nat>
  {
    set j: nat | j in lst && j < |cls| && AllIn(cls[j], vs)
  }

  /** Marking `v` covers, besides the clauses covered before, exactly the
      clauses listed in `occs[v]` whose variables are all marked. */
  lemma CoveredStep(cls: seq<seq<int>>, occs: map<int, seq<nat>>, before: seq<int>, v: int)
    requires IsOccMap(occs, cls)
    ensures Covered(cls, before + [v]) ==
      Covered(cls, before) + (if v in occs then NewlyCovered(cls, occs[v], before + [v]) else {})
  {
    var after := before + [v];
    forall j: nat | j in Covered(cls, after) && j !in Covered(cls, before)
      ensures v in occs && j in NewlyCovered(cls, occs[v], after)
    {
      var u :| u in cls[j] && u !in before;
      assert u == v;
      OccIndexMembers(cls, v, j);
    }
    forall j: nat | j in Covered(cls, before) ensures j in Covered(cls, after) {}
  }

  /** Before any variable is taken no non-empty clause is covered: the curve starts at 0. */
  lemma CoverageStart(cls: seq<seq<int>>)
    requires forall j :: 0 <= j < |cls| ==> cls[j] != []
    ensures |Covered(cls, [])| == 0
  {
    forall j: nat | j < |cls| ensures !AllIn(cls[j], []) {
      var u := cls[j][0];
      assert u in cls[j] && u !in [];
    }
    assert Covered(cls, []) == {};
  }

  /** Taking more variables never uncovers a clause: the curve is nondecreasing. */
  lemma CoverageMonotone(cls: seq<seq<int>>, vs: seq<int>, i: nat, j: nat)
    requires i <= j <= |vs|
    ensures |Covered(cls, vs[..i])| <= |Covered(cls, vs[..j])|
  {
    assert Covered(cls, vs[..i]) <= Covered(cls, vs[..j]) by {
      forall x | x in Covered(cls, vs[..i]) ensures x in Covered(cls, vs[..j]) {
        forall u | u in cls[x] ensures u in vs[..j] {
          var k :| 0 <= k < i && vs[..i][k] == u;
          assert vs[..j][k] == u;
        }
      }
    }
    SubsetCard(Covered(cls, vs[..i]), Covered(cls, vs[..j]));
  }

  lemma SubsetCard(a: set<nat>, b: set<nat>)
    requires a <= b
    ensures |a| <= |b|
  {
    assert b == a + (b - a);
  }

  /** With every clause variable among the soft variables, the last entry of
      the curve is the number of kept clauses. */
  lemma CoverageEnd(cls: seq<seq<int>>, vs: seq<int>)
    requires forall j :: 0 <= j < |cls| ==> AllIn(cls[j], vs)
    ensures |Covered(cls, vs)| == |cls|
  {
    assert Covered(cls, vs) == RangeSet(|cls|);
    RangeSetCard(|cls|);
  }

  /** The set {0, ..., n - 1}. */
  ghost function RangeSet(n: nat): (r: set<nat>)
    ensures forall j: nat :: j in r <==> j < n
  {
    if n == 0 then {} else RangeSet(n - 1) + {n - 1}
  }

  lemma {:induction false} RangeSetCard(n: nat)
    ensures |RangeSet(n)| == n
  {
    if n > 0 {
      RangeSetCard(n - 1);
    }
  }
}
