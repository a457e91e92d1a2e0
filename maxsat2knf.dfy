/** `maxSAT_to_KNF/maxSAT2KNF.hpp`: the parser observer that collects the
    clauses and cardinality constraints of a (weighted) KNF or MaxSAT file,
    and the writers that turn a MaxSAT formula into a KNF formula with one
    cardinality constraint over relaxed soft clauses. */
module MaxSatToKnf {
  import opened Wrappers
  import opened Common
  import opened Numerals
  import opened CnfWriter

  /** The `max_weight` of an unweighted formula. */
  const NoWeight: int := -2

  /** `size_t` arithmetic wraps modulo 2^64. */
  const SizeMod: int := 0x1_0000_0000_0000_0000

  // ---------------------------------------------------------------------
  // Specification of the passes over the clauses

  /** What one pass of `MaxSAT2KNF` produces: the lines it would write, the
      `soft_units` it appends, the next fresh variable and `clause_knf_cnt`. */
  datatype PassState = PassState(lines: seq<seq<Token>>, units: seq<int>, next: int, count: nat)

  /** One loop iteration: a hard clause is written as it is; a unit soft clause
      contributes its literal to `soft_units`; any other soft clause gets the
      fresh variable `next`, written negated at its end, and `next` joins
      `soft_units`. */
  function Step(st: PassState, c: seq<int>, hard: bool): PassState
  {
    if hard then PassState(st.lines + [ClauseLine(c)], st.units, st.next, st.count + 1)
    else if |c| == 1 then PassState(st.lines, st.units + [c[0]], st.next, st.count)
    else PassState(st.lines + [ClauseLine(c + [-st.next])], st.units + [st.next], st.next + 1, st.count + 1)
  }

  /** The loop of lines 267-272 (and 289-295) over the clauses, fresh
      variables starting at `start`; a clause is hard when its weight is `mw`. */
  function Pass(cls: seq<seq<int>>, ws: seq<int>, mw: int, start: int): PassState
    requires |ws| == |cls|
  {
    if cls == [] then PassState([], [], start, 0)
    else Step(Pass(cls[..|cls| - 1], ws[..|cls| - 1], mw, start), cls[|cls| - 1], ws[|cls| - 1] == mw)
  }

  /** The pass over the first `i + 1` clauses is one step after the pass over the first `i`. */
  lemma PassPrefix(cls: seq<seq<int>>, ws: seq<int>, mw: int, start: int, i: nat)
    requires |ws| == |cls| && i < |cls|
    ensures Pass(cls[..i + 1], ws[..i + 1], mw, start) == Step(Pass(cls[..i], ws[..i], mw, start), cls[i], ws[i] == mw)
  {
    assert cls[..i + 1][..i] == cls[..i] && ws[..i + 1][..i] == ws[..i];
  }

  /** The number of hard clauses. */
  function Hard(ws: seq<int>, mw: int): nat
  {
    if ws == [] then 0 else Hard(ws[..|ws| - 1], mw) + (if ws[|ws| - 1] == mw then 1 else 0)
  }

  /** The number of soft clauses. */
  function Soft(ws: seq<int>, mw: int): nat
  {
    if ws == [] then 0 else Soft(ws[..|ws| - 1], mw) + (if ws[|ws| - 1] != mw then 1 else 0)
  }

  /** The number of soft clauses that are not units: those that need a
      relaxation variable. */
  function Relaxed(cls: seq<seq<int>>, ws: seq<int>, mw: int): nat
    requires |ws| == |cls|
  {
    if cls == [] then 0
    else Relaxed(cls[..|cls| - 1], ws[..|cls| - 1], mw) + (if ws[|cls| - 1] != mw && |cls[|cls| - 1]| != 1 then 1 else 0)
  }

  /** A pass counts one clause per hard clause and per relaxed soft clause,
      allocates one fresh variable per relaxed soft clause, and puts every
      soft clause into `soft_units` once. */
  lemma {:induction false} PassCounts(cls: seq<seq<int>>, ws: seq<int>, mw: int, start: int)
    requires |ws| == |cls|
    ensures Pass(cls, ws, mw, start).count == Hard(ws, mw) + Relaxed(cls, ws, mw)
    ensures |Pass(cls, ws, mw, start).lines| == Hard(ws, mw) + Relaxed(cls, ws, mw)
    ensures Pass(cls, ws, mw, start).next == start + Relaxed(cls, ws, mw)
    ensures |Pass(cls, ws, mw, start).units| == Soft(ws, mw)
  {
    if cls != [] {
      PassCounts(cls[..|cls| - 1], ws[..|cls| - 1], mw, start);
    }
  }

  /** The literals of `units` that are at least `start`, in order. */
  function AtLeast(units: seq<int>, start: int): seq<int>
  {
    if units == [] then []
    else AtLeast(units[..|units| - 1], start) + (if units[|units| - 1] >= start then [units[|units| - 1]] else [])
  }

  /** `start, start + 1, ..., start + n - 1`. */
  function From(start: int, n: nat): (r: seq<int>)
    ensures |r| == n && forall i :: 0 <= i < n ==> r[i] == start + i
  {
    if n == 0 then [] else From(start, n - 1) + [start + n - 1]
  }

  /** No literal of the clauses reaches `start`. */
  predicate Below(cls: seq<seq<int>>, start: int)
  {
    forall i, j :: 0 <= i < |cls| && 0 <= j < |cls[i]| ==> Abs(cls[i][j]) < start
  }

  lemma AtLeastAppend(u: seq<int>, x: int, start: int)
    ensures AtLeast(u + [x], start) == AtLeast(u, start) + (if x >= start then [x] else [])
  {
    assert (u + [x])[..|u|] == u;
  }

  /** When every original variable is below `start`, the fresh variables in
      `soft_units` are exactly `start, ..., next - 1`, in allocation order,
      so they are distinct from each other and from every original variable. */
  lemma {:induction false} PassFresh(cls: seq<seq<int>>, ws: seq<int>, mw: int, start: int)
    requires |ws| == |cls| && Below(cls, start)
    ensures AtLeast(Pass(cls, ws, mw, start).units, start) == From(start, Relaxed(cls, ws, mw))
  {
    if cls != [] {
      var n := |cls| - 1;
      BelowPrefix(cls, start);
      PassFresh(cls[..n], ws[..n], mw, start);
      PassCounts(cls[..n], ws[..n], mw, start);
      var st := Pass(cls[..n], ws[..n], mw, start);
      var r := Relaxed(cls[..n], ws[..n], mw);
      assert Pass(cls, ws, mw, start) == Step(st, cls[n], ws[n] == mw);
      assert Relaxed(cls, ws, mw) == r + (if ws[n] != mw && |cls[n]| != 1 then 1 else 0);
      FreshStep(st, r, cls[n], ws[n] == mw, start);
    }
  }

  /** A prefix of clauses below `start` is below `start`. */
  lemma BelowPrefix(cls: seq<seq<int>>, start: int)
    requires cls != [] && Below(cls, start)
    ensures Below(cls[..|cls| - 1], start) && forall l :: l in cls[|cls| - 1] ==> Abs(l) < start
  {
    var n := |cls| - 1;
    forall i, j | 0 <= i < n && 0 <= j < |cls[..n][i]| ensures Abs(cls[..n][i][j]) < start {
      assert cls[..n][i] == cls[i];
    }
  }

  /** One step keeps the fresh units of `soft_units` equal to `start, ..., next - 1`. */
  lemma FreshStep(st: PassState, r: nat, c: seq<int>, hard: bool, start: int)
    requires AtLeast(st.units, start) == From(start, r) && st.next == start + r
    requires forall l :: l in c ==> Abs(l) < start
    ensures AtLeast(Step(st, c, hard).units, start) == From(start, r + (if !hard && |c| != 1 then 1 else 0))
  {
    if !hard && |c| == 1 {
      assert Abs(c[0]) < start;
      AtLeastAppend(st.units, c[0], start);
    } else if !hard {
      AtLeastAppend(st.units, st.next, start);
      assert From(start, r + 1) == From(start, r) + [start + r];
    }
  }

  /** `write_soft_clause` and `write_hard_clause` of `fix_MaxSAT`: the lines
      written and the next fresh variable. */
  function Fix(cls: seq<seq<int>>, ws: seq<int>, mw: int, start: int): (seq<seq<Token>>, int)
    requires |ws| == |cls|
  {
    if cls == [] then ([], start)
    else
      var (lines, next) := Fix(cls[..|cls| - 1], ws[..|cls| - 1], mw, start);
      var c := cls[|cls| - 1];
      if ws[|cls| - 1] == mw then (lines + [HardLine(c)], next)
      else if |c| == 1 then (lines + [SoftLine(c[0])], next)
      else (lines + [SoftLine(next), HardLine(c + [-next])], next + 1)
  }

  /** `fix_MaxSAT` writes one line per hard clause and per soft unit and two
      per other soft clause, and it allocates the same fresh variables as
      `MaxSAT2KNF`'s passes. */
  lemma {:induction false} FixCounts(cls: seq<seq<int>>, ws: seq<int>, mw: int, start: int)
    requires |ws| == |cls|
    ensures |Fix(cls, ws, mw, start).0| == Hard(ws, mw) + Soft(ws, mw) + Relaxed(cls, ws, mw)
    ensures Fix(cls, ws, mw, start).1 == Pass(cls, ws, mw, start).next
  {
    if cls != [] {
      FixCounts(cls[..|cls| - 1], ws[..|cls| - 1], mw, start);
    }
  }

  /** The `k` line's bound `soft_units.size() - add_bound`, computed in `size_t`. */
  function KBound(units: nat, addBound: int): (b: nat)
    ensures b < SizeMod
    ensures 0 <= units - addBound < SizeMod ==> b == units - addBound
  {
    (units - addBound) % SizeMod
  }

  /** The line `write_hard_clause_knf` writes for a clause of the output. */
  function WeightedLine(weighted: bool, sWeight: string, line: seq<Token>): seq<Token>
  {
    if weighted then [Word(sWeight)] + line else line
  }

  // ---------------------------------------------------------------------
  // The observer

  class KnfCheck {
    var maxVar: int
    var maxCls: int
    var maxWeight: int
    var clauses: seq<seq<int>>
    var clauseWeights: seq<int>
    var clauseSWeights: seq<string>
    var cards: seq<(seq<int>, int)>
    var cardWeights: seq<int>
    var cardSWeights: seq<string>
    var cardGuards: seq<int>
    var accSoftWeight: int
    var clauseKnfCnt: int

    /** The parallel vectors agree in length, and what the callbacks store
        is never an empty list, a bound-0 or a bound-1 constraint. */
    ghost predicate Valid()
      reads this
    {
      |clauseWeights| == |clauses| && |clauseSWeights| == |clauses|
      && |cardWeights| == |cards| && |cardSWeights| == |cards| && |cardGuards| == |cards|
      && (forall i :: 0 <= i < |clauses| ==> clauses[i] != [])
      && (forall j :: 0 <= j < |cards| ==> cards[j].0 != [] && cards[j].1 != 0 && cards[j].1 != 1)
    }

    /** `has_weight`: a `Header` call set a weight other than the sentinel. */
    predicate HasWeight()
      reads this
    {
      maxWeight != NoWeight
    }

    constructor ()
      ensures Valid() && !HasWeight() && accSoftWeight == 0
      ensures clauses == [] && cards == []
    {
      accSoftWeight := 0;
      maxWeight := NoWeight;
      clauses, clauseWeights, clauseSWeights := [], [], [];
      cards, cardWeights, cardSWeights, cardGuards := [], [], [], [];
    }

    method Header(mv: int, mc: int, mw: int)
      modifies this`maxVar, this`maxCls, this`maxWeight
      ensures maxVar == mv && maxCls == mc && maxWeight == mw
    {
      maxVar, maxCls, maxWeight := mv, mc, mw;
    }

    /** The weight a stored soft constraint adds to `acc_soft_weight`; None
        when `stoi` throws on the weight string. */
    function SoftWeight(sWeight: string): Option<int>
      reads this
    {
      if !HasWeight() then Some(0)
      else match Stoi(sWeight)
        case Err(_) => None
        case Ok(w) => Some(if w != maxWeight then w else 0)
    }

    /** `Clause`: an empty list is dropped; otherwise the clause, its weight
        and its weight text are appended and a soft weight is accumulated.
        `ok` is false when `stoi` throws, which ends the program. */
    method Clause(lits: seq<int>, weight: int, sWeight: string) returns (ok: bool)
      requires Valid()
      modifies this`clauses, this`clauseWeights, this`clauseSWeights, this`accSoftWeight
      ensures Valid()
      ensures lits == [] ==> (clauses == old(clauses) && clauseWeights == old(clauseWeights)
        && clauseSWeights == old(clauseSWeights) && accSoftWeight == old(accSoftWeight) && ok)
      ensures lits != [] ==> (clauses == old(clauses) + [lits] && clauseWeights == old(clauseWeights) + [weight]
        && clauseSWeights == old(clauseSWeights) + [sWeight]
        && ok == SoftWeight(sWeight).Some?
        && accSoftWeight == old(accSoftWeight) + (if ok then SoftWeight(sWeight).value else 0))
    {
      ok := true;
      if lits == [] {
        return;
      }
      clauses := clauses + [lits];
      clauseWeights := clauseWeights + [weight];
      clauseSWeights := clauseSWeights + [sWeight];
      var w := SoftWeight(sWeight);
      if w.None? {
        ok := false;
        return;
      }
      accSoftWeight := accSoftWeight + w.value;
    }

    /** `CardinalityConstraint`: empty lists and bound 0 are dropped, bound 1
        goes to `Clause`, any other bound is stored with its weights and guard. */
    method CardinalityConstraint(lits: seq<int>, bound: int, weight: int, sWeight: string, guard: int)
      returns (ok: bool)
      requires Valid()
      modifies this`clauses, this`clauseWeights, this`clauseSWeights, this`accSoftWeight,
        this`cards, this`cardWeights, this`cardSWeights, this`cardGuards
      ensures Valid()
      ensures lits == [] || bound == 0 ==> (clauses == old(clauses) && clauseWeights == old(clauseWeights)
        && clauseSWeights == old(clauseSWeights) && cards == old(cards) && cardWeights == old(cardWeights)
        && cardSWeights == old(cardSWeights) && cardGuards == old(cardGuards)
        && accSoftWeight == old(accSoftWeight) && ok)
      ensures lits != [] && bound == 1 ==> (clauses == old(clauses) + [lits] && cards == old(cards)
        && clauseWeights == old(clauseWeights) + [weight] && clauseSWeights == old(clauseSWeights) + [sWeight]
        && cardWeights == old(cardWeights) && cardSWeights == old(cardSWeights) && cardGuards == old(cardGuards))
      ensures lits != [] && bound != 0 && bound != 1 ==> (clauses == old(clauses)
        && clauseWeights == old(clauseWeights) && clauseSWeights == old(clauseSWeights)
        && cards == old(cards) + [(lits, bound)] && cardWeights == old(cardWeights) + [weight]
        && cardSWeights == old(cardSWeights) + [sWeight] && cardGuards == old(cardGuards) + [guard])
      ensures lits != [] && bound != 0 ==> (ok == SoftWeight(sWeight).Some?
        && accSoftWeight == old(accSoftWeight) + (if ok then SoftWeight(sWeight).value else 0))
    {
      ok := true;
      if lits == [] || bound == 0 {
        return;
      }
      if bound == 1 {
        ok := Clause(lits, weight, sWeight);
        return;
      }
      cards := cards + [(lits, bound)];
      cardWeights := cardWeights + [weight];
      cardSWeights := cardSWeights + [sWeight];
      cardGuards := cardGuards + [guard];
      var w := SoftWeight(sWeight);
      if w.None? {
        ok := false;
        return;
      }
      accSoftWeight := accSoftWeight + w.value;
    }

    /** Every literal of the stored clauses and constraints is at most
        `maxVar` in absolute value. */
    ghost predicate VarsBounded()
      reads this
    {
      (forall i, j :: 0 <= i < |clauses| && 0 <= j < |clauses[i]| ==> Abs(clauses[i][j]) <= maxVar)
      && (forall i, j :: 0 <= i < |cards| && 0 <= j < |cards[i].0| ==> Abs(cards[i].0[j]) <= maxVar)
    }

    /** `SetMaxVar`: `max_var` becomes the largest of its old value and the
        absolute values of all stored literals. */
    method SetMaxVar()
      modifies this`maxVar
      ensures VarsBounded() && maxVar >= old(maxVar)
      ensures maxVar == old(maxVar)
        || (exists i, j :: 0 <= i < |clauses| && 0 <= j < |clauses[i]| && Abs(clauses[i][j]) == maxVar)
        || (exists i, j :: 0 <= i < |cards| && 0 <= j < |cards[i].0| && Abs(cards[i].0[j]) == maxVar)
    {
      ghost var m0 := maxVar;
      for i := 0 to |clauses|
        invariant maxVar >= m0
        invariant forall k, j :: 0 <= k < i && 0 <= j < |clauses[k]| ==> Abs(clauses[k][j]) <= maxVar
        invariant maxVar == m0 || exists k, j :: 0 <= k < i && 0 <= j < |clauses[k]| && Abs(clauses[k][j]) == maxVar
      {
        var before := maxVar;
        maxVar := Raise(maxVar, clauses[i]);
        if maxVar != before {
          var j :| 0 <= j < |clauses[i]| && Abs(clauses[i][j]) == maxVar;
        }
      }
      ghost var m1 := maxVar;
      for i := 0 to |cards|
        invariant maxVar >= m1
        invariant forall k, j :: 0 <= k < |clauses| && 0 <= j < |clauses[k]| ==> Abs(clauses[k][j]) <= maxVar
        invariant forall k, j :: 0 <= k < i && 0 <= j < |cards[k].0| ==> Abs(cards[k].0[j]) <= maxVar
        invariant maxVar == m1 || exists k, j :: 0 <= k < i && 0 <= j < |cards[k].0| && Abs(cards[k].0[j]) == maxVar
      {
        var before := maxVar;
        maxVar := Raise(maxVar, cards[i].0);
        if maxVar != before {
          var j :| 0 <= j < |cards[i].0| && Abs(cards[i].0[j]) == maxVar;
        }
      }
    }

    /** The inner loop of `SetMaxVar` over the literals of one list. */
    static method Raise(m: int, lits: seq<int>) returns (r: int)
      ensures r >= m && forall j :: 0 <= j < |lits| ==> Abs(lits[j]) <= r
      ensures r == m || exists j :: 0 <= j < |lits| && Abs(lits[j]) == r
    {
      r := m;
      for j := 0 to |lits|
        invariant r >= m && forall k :: 0 <= k < j ==> Abs(lits[k]) <= r
        invariant r == m || exists k :: 0 <= k < j && Abs(lits[k]) == r
      {
        if Abs(lits[j]) > r {
          r := Abs(lits[j]);
        }
      }
    }

    /** The header `writeKnf` writes: `p wknf` with the weight when weighted. */
    function KnfHeader(): seq<Token>
      reads this
    {
      var n := |clauses| + |cards|;
      if HasWeight() then [Word("p"), Word("wknf"), Num(maxVar), Num(n), Num(maxWeight)]
      else [Word("p"), Word("knf"), Num(maxVar), Num(n)]
    }

    /** `writeKnf`: a comment, the header counting clauses and constraints,
        every clause, then every constraint as a `k` line, weight first when
        weighted. Unweighted, each line reads back as what was stored. */
    method WriteKnf() returns (out: seq<seq<Token>>)
      requires Valid()
      ensures |out| == 2 + |clauses| + |cards|
      ensures out[0] == [Word("c"), Word("converted"), Word("file"), Word("format")]
      ensures out[1] == KnfHeader() && out[1][3] == Num(|out| - 2)
      ensures forall i :: 0 <= i < |clauses| ==>
        out[2 + i] == WeightedLine(HasWeight(), clauseSWeights[i], ClauseLine(clauses[i]))
      ensures forall j :: 0 <= j < |cards| ==>
        out[2 + |clauses| + j] == WeightedLine(HasWeight(), cardSWeights[j], CardLine(cards[j].1, cards[j].0))
      ensures !HasWeight() ==> forall i :: 0 <= i < |clauses| ==> ClassifyLine(out[2 + i]) == Plain(clauses[i])
      ensures !HasWeight() ==> forall j :: 0 <= j < |cards| ==>
        ClassifyLine(out[2 + |clauses| + j]) == Card(cards[j].1, cards[j].0)
    {
      out := [[Word("c"), Word("converted"), Word("file"), Word("format")], KnfHeader()];
      for i := 0 to |clauses|
        invariant |out| == 2 + i && out[0] == [Word("c"), Word("converted"), Word("file"), Word("format")]
        invariant out[1] == KnfHeader()
        invariant forall k :: 0 <= k < i ==> out[2 + k] == WeightedLine(HasWeight(), clauseSWeights[k], ClauseLine(clauses[k]))
      {
        out := out + [WeightedLine(HasWeight(), clauseSWeights[i], ClauseLine(clauses[i]))];
      }
      for j := 0 to |cards|
        invariant |out| == 2 + |clauses| + j && out[0] == [Word("c"), Word("converted"), Word("file"), Word("format")]
        invariant out[1] == KnfHeader()
        invariant forall k :: 0 <= k < |clauses| ==> out[2 + k] == WeightedLine(HasWeight(), clauseSWeights[k], ClauseLine(clauses[k]))
        invariant forall k :: 0 <= k < j ==>
          out[2 + |clauses| + k] == WeightedLine(HasWeight(), cardSWeights[k], CardLine(cards[k].1, cards[k].0))
      {
        out := out + [WeightedLine(HasWeight(), cardSWeights[j], CardLine(cards[j].1, cards[j].0))];
      }
      forall i | 0 <= i < |clauses| ensures !HasWeight() ==> ClassifyLine(out[2 + i]) == Plain(clauses[i]) {
        ClauseLineRead(clauses[i]);
      }
      forall j | 0 <= j < |cards| ensures !HasWeight() ==> ClassifyLine(out[2 + |clauses| + j]) == Card(cards[j].1, cards[j].0) {
        CardLineRead(cards[j].1, cards[j].0);
      }
    }

    /** `write_hard_clause_knf`: the line (when writing) and one more clause counted. */
    method WriteHardClauseKnf(lits: seq<int>, write: bool) returns (lines: seq<seq<Token>>)
      modifies this`clauseKnfCnt
      ensures clauseKnfCnt == old(clauseKnfCnt) + 1
      ensures lines == if write then [ClauseLine(lits)] else []
    {
      lines := if write then [ClauseLine(lits)] else [];
      clauseKnfCnt := clauseKnfCnt + 1;
    }

    /** `write_soft_clause_knf`: a unit joins `soft_units`; any other soft
        clause gets the fresh variable `newMaxVar`,
        written negated as a hard clause, and that variable joins `soft_units`. */
    method WriteSoftClauseKnf(lits: seq<int>, newMaxVar: int, softUnits: seq<int>, write: bool)
      returns (next: int, units: seq<int>, lines: seq<seq<Token>>)
      modifies this`clauseKnfCnt
      ensures var st := Step(PassState([], softUnits, newMaxVar, 0), lits, false);
        next == st.next && units == st.units && lines == (if write then st.lines else [])
        && clauseKnfCnt == old(clauseKnfCnt) + st.count
    {
      if |lits| == 1 {
        units := softUnits + [lits[0]];
        next := newMaxVar;
        lines := [];
      } else {
        units := softUnits + [newMaxVar];
        lines := WriteHardClauseKnf(lits + [-newMaxVar], write);
        next := newMaxVar + 1;
      }
    }

    /** The body of that loop: clause `c` goes to `write_hard_clause_knf` or
        `write_soft_clause_knf`, and the pass state moves one `Step`. */
    method PassStep(c: seq<int>, hard: bool, write: bool, ghost st: PassState, ghost softUnits: seq<int>,
                    lines: seq<seq<Token>>, units: seq<int>, next: int)
      returns (lines': seq<seq<Token>>, units': seq<int>, next': int)
      requires write ==> lines == st.lines
      requires !write ==> lines == []
      requires units == softUnits + st.units && next == st.next
      modifies this`clauseKnfCnt
      ensures write ==> lines' == Step(st, c, hard).lines
      ensures !write ==> lines' == []
      ensures units' == softUnits + Step(st, c, hard).units && next' == Step(st, c, hard).next
      ensures clauseKnfCnt == old(clauseKnfCnt) + Step(st, c, hard).count - st.count
    {
      var more: seq<seq<Token>>;
      if hard {
        more := WriteHardClauseKnf(c, write);
        units', next' := units, next;
      } else {
        next', units', more := WriteSoftClauseKnf(c, next, units, write);
      }
      lines' := lines + more;
    }

    /** One loop over the clauses in `MaxSAT2KNF`, writing or only counting. */
    method RunPass(start: int, softUnits: seq<int>, write: bool)
      returns (lines: seq<seq<Token>>, units: seq<int>, next: int)
      requires Valid()
      modifies this`clauseKnfCnt
      ensures lines == (if write then Pass(clauses, clauseWeights, maxWeight, start).lines else [])
      ensures units == softUnits + Pass(clauses, clauseWeights, maxWeight, start).units
      ensures next == Pass(clauses, clauseWeights, maxWeight, start).next
      ensures clauseKnfCnt == old(clauseKnfCnt) + Pass(clauses, clauseWeights, maxWeight, start).count
    {
      lines, units, next := [], softUnits, start;
      var cls, ws, mw := clauses, clauseWeights, maxWeight;
      ghost var cnt0 := clauseKnfCnt;
      ghost var st := Pass([], [], mw, start);
      for i := 0 to |cls|
        invariant st == Pass(cls[..i], ws[..i], mw, start)
        invariant write ==> lines == st.lines
        invariant !write ==> lines == []
        invariant units == softUnits + st.units && next == st.next
        invariant clauseKnfCnt == cnt0 + st.count
      {
        PassPrefix(cls, ws, mw, start, i);
        lines, units, next := PassStep(cls[i], ws[i] == mw, write, st, softUnits, lines, units, next);
        st := Step(st, cls[i], ws[i] == mw);
      }
      assert cls[..|cls|] == cls && ws[..|cls|] == ws;
    }

    /** `MaxSAT2KNF`: pass 1 only counts, then the header (`new_max_var - 1`
        variables, `clause_knf_cnt + 1` clauses), the `k` line over pass 1's
        `soft_units` when `add_bound` is nonzero, and pass 2's lines. Both
        passes start fresh variables at `max_var + 1`. */
    method MaxSAT2KNF(addBound: int) returns (out: seq<seq<Token>>)
      requires Valid()
      modifies this`clauseKnfCnt
      ensures var p := Pass(clauses, clauseWeights, maxWeight, maxVar + 1);
        out == [[Word("p"), Word("knf"), Num(p.next - 1), Num(p.count + 1)]]
          + (if addBound != 0 then [CardLine(KBound(|p.units|, addBound), p.units)] else [])
          + p.lines
      ensures clauseKnfCnt == Pass(clauses, clauseWeights, maxWeight, maxVar + 1).count
    {
      var start := maxVar + 1;
      ghost var p := Pass(clauses, clauseWeights, maxWeight, start);
      clauseKnfCnt := 0;
      var counted, units, next := RunPass(start, [], false);
      assert units == p.units && next == p.next && clauseKnfCnt == p.count;
      out := [[Word("p"), Word("knf"), Num(next - 1), Num(clauseKnfCnt + 1)]];
      if addBound != 0 {
        out := out + [CardLine(KBound(|units|, addBound), units)];
      }
      clauseKnfCnt := 0;
      var lines, units2, next2 := RunPass(start, units, true);
      assert lines == p.lines;
      out := out + lines;
    }

    /** `fix_MaxSAT`: the MaxSAT formula with every soft clause turned into a
        soft unit, a non-unit one through a fresh variable and a hard clause. */
    method FixMaxSat() returns (out: seq<seq<Token>>)
      requires Valid()
      ensures out == Fix(clauses, clauseWeights, maxWeight, maxVar + 1).0
    {
      out := [];
      var next := maxVar + 1;
      for i := 0 to |clauses|
        invariant (out, next) == Fix(clauses[..i], clauseWeights[..i], maxWeight, maxVar + 1)
      {
        assert clauses[..i + 1][..i] == clauses[..i] && clauseWeights[..i + 1][..i] == clauseWeights[..i];
        var c := clauses[i];
        if clauseWeights[i] == maxWeight {
          out := out + [HardLine(c)];
        } else if |c| == 1 {
          out := out + [SoftLine(c[0])];
        } else {
          out := out + [SoftLine(next), HardLine(c + [-next])];
          next := next + 1;
        }
      }
      assert clauses[..|clauses|] == clauses && clauseWeights[..|clauses|] == clauseWeights;
    }
  }

  /** When every literal is at most `max_var` (as after `SetMaxVar`), pass 2's
      fresh variables are exactly the ones the header adds:
      `max_var + 1, ..., max_var + n` for the `n` relaxed soft clauses. */
  lemma HeaderCountsFresh(cls: seq<seq<int>>, ws: seq<int>, mw: int, maxVar: int)
    requires |ws| == |cls|
    requires forall i, j :: 0 <= i < |cls| && 0 <= j < |cls[i]| ==> Abs(cls[i][j]) <= maxVar
    ensures var p := Pass(cls, ws, mw, maxVar + 1);
      p.next - 1 == maxVar + Relaxed(cls, ws, mw)
      && p.count + 1 == Hard(ws, mw) + Relaxed(cls, ws, mw) + 1
      && AtLeast(p.units, maxVar + 1) == From(maxVar + 1, Relaxed(cls, ws, mw))
  {
    PassCounts(cls, ws, mw, maxVar + 1);
    PassFresh(cls, ws, mw, maxVar + 1);
  }

  /** Worked example: one hard clause, a soft unit and a soft binary clause
      over variables 1..3 give `p knf 4 3`, `k 1 2 4 0`, `1 3 0` and `1 3 -4 0`. */
  lemma MaxSatExample()
    ensures var p := Pass([[1, 3], [2], [1, 3]], [10, 1, 1], 10, 4);
      p.next - 1 == 4 && p.count + 1 == 3 && p.units == [2, 4]
      && p.lines == [ClauseLine([1, 3]), ClauseLine([1, 3, -4])]
      && KBound(|p.units|, 1) == 1
  {
    var cls: seq<seq<int>> := [[1, 3], [2], [1, 3]];
    var ws := [10, 1, 1];
    var c1, c2: seq<seq<int>> := [[1, 3]], [[1, 3], [2]];
    assert c1[..0] == [] && [10][..0] == [];
    var p1 := Pass(c1, [10], 10, 4);
    assert p1 == PassState([ClauseLine([1, 3])], [], 4, 1);
    assert c2[..1] == c1 && [10, 1][..1] == [10];
    var p2 := Pass(c2, [10, 1], 10, 4);
    assert p2 == Step(p1, [2], false) == PassState([ClauseLine([1, 3])], [2], 4, 1);
    assert cls[..2] == c2 && ws[..2] == [10, 1];
    assert [1, 3] + [-4] == [1, 3, -4];
    assert Pass(cls, ws, 10, 4) == Step(p2, [1, 3], false);
  }
}
