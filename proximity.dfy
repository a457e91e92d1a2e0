/** `tools/proximity/main.hpp`: the parser observer of the proximity tool,
    which records where each variable occurs, and the integer skeleton of the
    proximity algorithm: a work list of seen variables, the choice of the next
    variable, and the loop that emits each variable at most once. */
module Proximity {
  import opened Common

  // ---------------------------------------------------------------------
  // Vectors

  /** `vector::resize(n)`: the first `n` old elements kept, zero-filled up to `n`. */
  function Resize<T>(s: seq<T>, n: nat, zero: T): (r: seq<T>)
    ensures |r| == n
    ensures forall i :: 0 <= i < n && i < |s| ==> r[i] == s[i]
    ensures forall i :: |s| <= i < n ==> r[i] == zero
  {
    if n <= |s| then s[..n] else s + Repeat(zero, n - |s|)
  }

  /** Every literal of every list names a variable below `n`. */
  predicate LitsBelow(cls: seq<seq<int>>, n: int)
  {
    forall i, k :: 0 <= i < |cls| && 0 <= k < |cls[i]| ==> Abs(cls[i][k]) < n
  }

  // ---------------------------------------------------------------------
  // Occurrence lists and counts

  /** The loop of lines 66-71 (and 113-116) on one sign: entry `e` is
      appended to the list of `|l|` for every literal `l` of that sign
      (`l > 0` for the positive lists, any other literal for the negative). */
  function Push(occ: seq<seq<int>>, lits: seq<int>, e: int, positive: bool): (r: seq<seq<int>>)
    requires forall k :: 0 <= k < |lits| ==> Abs(lits[k]) < |occ|
    ensures |r| == |occ|
  {
    if lits == [] then occ
    else
      var q := Push(occ, lits[..|lits| - 1], e, positive);
      var l := lits[|lits| - 1];
      if (l > 0) == positive then q[Abs(l) := q[Abs(l)] + [e]] else q
  }

  /** The number of literals of `lits` over variable `v` with the given sign. */
  function CountSigned(lits: seq<int>, v: int, positive: bool): nat
  {
    if lits == [] then 0
    else
      var l := lits[|lits| - 1];
      CountSigned(lits[..|lits| - 1], v, positive) + (if Abs(l) == v && (l > 0) == positive then 1 else 0)
  }

  /** After `Push`, the list of `v` is its old list followed by `e` once per
      literal of that sign over `v`. */
  lemma {:induction false} PushAt(occ: seq<seq<int>>, lits: seq<int>, e: int, positive: bool, v: int)
    requires forall k :: 0 <= k < |lits| ==> Abs(lits[k]) < |occ|
    requires 0 <= v < |occ|
    ensures Push(occ, lits, e, positive)[v] == occ[v] + Repeat(e, CountSigned(lits, v, positive))
  {
    if lits != [] {
      PushAt(occ, lits[..|lits| - 1], e, positive, v);
    }
  }

  /** `occ_count[abs(lit)]++` for every literal. */
  function Bump(cnt: seq<int>, lits: seq<int>): (r: seq<int>)
    requires forall k :: 0 <= k < |lits| ==> Abs(lits[k]) < |cnt|
    ensures |r| == |cnt|
  {
    if lits == [] then cnt
    else
      var q := Bump(cnt, lits[..|lits| - 1]);
      var v := Abs(lits[|lits| - 1]);
      q[v := q[v] + 1]
  }

  /** After `Bump`, the count of `v` grew by the number of literals over `v`. */
  lemma {:induction false} BumpAt(cnt: seq<int>, lits: seq<int>, v: int)
    requires forall k :: 0 <= k < |lits| ==> Abs(lits[k]) < |cnt|
    requires 0 <= v < |cnt|
    ensures Bump(cnt, lits)[v] == cnt[v] + CountVar(lits, v)
  {
    if lits != [] {
      BumpAt(cnt, lits[..|lits| - 1], v);
    }
  }

  /** An entry of an occurrence list: `e > 0` is clause `e`, `e < 0` is AMO
      constraint `-e`, and `0` is pushed both for clause 0 and for AMO
      constraint 0, so it exists once either list is non-empty. */
  predicate EntryOk(e: int, nc: int, na: int)
  {
    if e < 0 then -e < na else if e > 0 then e < nc else nc > 0 || na > 0
  }

  predicate Entries(occ: seq<seq<int>>, nc: int, na: int)
  {
    forall v, k :: 0 <= v < |occ| && 0 <= k < |occ[v]| ==> EntryOk(occ[v][k], nc, na)
  }

  lemma PushEntries(occ: seq<seq<int>>, lits: seq<int>, e: int, positive: bool, nc: int, na: int)
    requires forall k :: 0 <= k < |lits| ==> Abs(lits[k]) < |occ|
    requires Entries(occ, nc, na) && EntryOk(e, nc, na)
    ensures Entries(Push(occ, lits, e, positive), nc, na)
  {
    var r := Push(occ, lits, e, positive);
    forall v, k | 0 <= v < |r| && 0 <= k < |r[v]| ensures EntryOk(r[v][k], nc, na) {
      PushAt(occ, lits, e, positive, v);
      if k >= |occ[v]| {
        assert r[v][k] == Repeat(e, CountSigned(lits, v, positive))[k - |occ[v]|];
      }
    }
  }

  lemma EntriesGrow(occ: seq<seq<int>>, nc: int, na: int, nc': int, na': int)
    requires Entries(occ, nc, na) && nc <= nc' && na <= na'
    ensures Entries(occ, nc', na')
  {
    forall v, k | 0 <= v < |occ| && 0 <= k < |occ[v]| ensures EntryOk(occ[v][k], nc', na') {
      assert EntryOk(occ[v][k], nc, na);
    }
  }

  /** The variables of a constraint, `k_variables.insert(abs(lit))`. */
  function VarsOf(lits: seq<int>): (r: set<int>)
    ensures forall k :: 0 <= k < |lits| ==> Abs(lits[k]) in r
    ensures forall v :: v in r ==> exists k :: 0 <= k < |lits| && Abs(lits[k]) == v
  {
    if lits == [] then {} else VarsOf(lits[..|lits| - 1]) + {Abs(lits[|lits| - 1])}
  }

  // ---------------------------------------------------------------------
  // The `processed` flags and the work list `fake_heap`

  /** The `processed` flags and the work list `fake_heap` together. */
  datatype Work = Work(flags: seq<int>, heap: seq<int>)

  /** Lines 245-262 without the scores: each literal's variable whose flag is
      0 (never seen) gets flag 1 and is pushed onto the work list; flags 1 (on
      the work list) and 2 (emitted) stay. */
  function Seen(w: Work, lits: seq<int>): (r: Work)
    ensures |r.flags| == |w.flags|
  {
    if lits == [] then w
    else
      var q := Seen(w, lits[..|lits| - 1]);
      var v := Abs(lits[|lits| - 1]);
      if v < |q.flags| && q.flags[v] == 0 then Work(q.flags[v := 1], q.heap + [v]) else q
  }

  lemma {:induction false} SeenAppend(w: Work, a: seq<int>, b: seq<int>)
    ensures Seen(w, a + b) == Seen(Seen(w, a), b)
  {
    if b == [] {
      assert a + b == a;
    } else {
      assert (a + b)[..|a + b| - 1] == a + b[..|b| - 1];
      assert (a + b)[|a + b| - 1] == b[|b| - 1];
      SeenAppend(w, a, b[..|b| - 1]);
    }
  }

  /** A flag changes only from 0 to 1, and the work list only grows, by
      variables whose flag was 0 and is now 1. */
  lemma {:induction false} SeenFlags(w: Work, lits: seq<int>)
    ensures forall v :: 0 <= v < |w.flags| ==>
      Seen(w, lits).flags[v] == w.flags[v] || (w.flags[v] == 0 && Seen(w, lits).flags[v] == 1)
    ensures |Seen(w, lits).heap| >= |w.heap| && Seen(w, lits).heap[..|w.heap|] == w.heap
    ensures forall k :: |w.heap| <= k < |Seen(w, lits).heap| ==>
      var x := Seen(w, lits).heap[k]; 0 <= x < |w.flags| && w.flags[x] == 0 && Seen(w, lits).flags[x] == 1
  {
    if lits != [] {
      SeenFlags(w, lits[..|lits| - 1]);
    }
  }

  /** The work list holds distinct variables, each with flag 1. */
  predicate HeapOk(w: Work)
  {
    Distinct(w.heap) && forall k :: 0 <= k < |w.heap| ==> 0 <= w.heap[k] < |w.flags| && w.flags[w.heap[k]] == 1
  }

  /** Touching literals keeps the work list well formed: a variable joins it
      only on its flag's 0 -> 1 transition, so never twice. */
  lemma {:induction false} SeenKeepsHeap(w: Work, lits: seq<int>)
    requires HeapOk(w)
    ensures HeapOk(Seen(w, lits))
  {
    if lits != [] {
      var q := Seen(w, lits[..|lits| - 1]);
      SeenKeepsHeap(w, lits[..|lits| - 1]);
      var v := Abs(lits[|lits| - 1]);
      if v < |q.flags| && q.flags[v] == 0 {
        var h := q.heap + [v];
        forall i, j | 0 <= i < j < |h| ensures h[i] != h[j] {
          assert h[i] == q.heap[i];
          if j < |q.heap| {
            assert h[j] == q.heap[j];
          }
        }
      }
    }
  }

  /** Removing the emitted element keeps the work list well formed once its
      flag is 2. */
  lemma RemoveKeepsHeap(p: seq<int>, h: seq<int>, i: nat)
    requires HeapOk(Work(p, h)) && i < |h|
    ensures HeapOk(Work(p[h[i] := 2], h[..i] + h[i + 1..]))
  {
    var h' := h[..i] + h[i + 1..];
    forall k | 0 <= k < |h'| ensures h'[k] == (if k < i then h[k] else h[k + 1]) {
    }
    forall k | 0 <= k < |h'| ensures h'[k] != h[i] {
      if k < i {
        assert h'[k] == h[k];
      } else {
        assert h'[k] == h[k + 1];
      }
    }
    forall a, b | 0 <= a < b < |h'| ensures h'[a] != h'[b] {
      var a' := if a < i then a else a + 1;
      var b' := if b < i then b else b + 1;
      assert h'[a] == h[a'] && h'[b] == h[b'];
    }
  }

  /** `max_element(..., scores[a] < scores[b])`: the first position of a
      largest score. */
  function ArgMax(s: seq<int>, score: int -> real): (i: nat)
    requires s != []
    ensures i < |s|
    ensures forall j :: 0 <= j < |s| ==> score(s[j]) <= score(s[i])
    ensures forall j :: 0 <= j < i ==> score(s[j]) < score(s[i])
  {
    if |s| == 1 then 0
    else
      var k := ArgMax(s[..|s| - 1], score);
      if score(s[k]) < score(s[|s| - 1]) then |s| - 1 else k
  }

  // ---------------------------------------------------------------------
  // The emitted order

  /** How many entries of `s` are k-variables (`kCount` counts down by it). */
  function Hits(s: seq<int>, kVars: set<int>): nat
  {
    if s == [] then 0 else Hits(s[..|s| - 1], kVars) + (if s[|s| - 1] in kVars then 1 else 0)
  }

  /** Every entry of `entries` names one of `nc` clauses or `na` AMO constraints. */
  predicate Resolves(entries: seq<int>, nc: int, na: int)
  {
    forall k :: 0 <= k < |entries| ==> (entries[k] < 0 ==> -entries[k] < na) && (entries[k] >= 0 ==> entries[k] < nc)
  }

  /** The constraint an occurrence entry names (lines 230-235): AMO
      constraint `-e` for a negative entry, clause `e` otherwise. */
  function Constraint(cls: seq<seq<int>>, amos: seq<seq<int>>, e: int): (lits: seq<int>)
    requires e < 0 ==> -e < |amos|
    requires e >= 0 ==> e < |cls|
    ensures e < 0 ==> lits == amos[-e]
    ensures e >= 0 ==> lits == cls[e]
  {
    if e < 0 then amos[-e] else cls[e]
  }

  /** The literals of the constraints of `entries`, in order. */
  function Touched(cls: seq<seq<int>>, amos: seq<seq<int>>, entries: seq<int>): seq<int>
    requires Resolves(entries, |cls|, |amos|)
  {
    if entries == [] then []
    else
      var init := entries[..|entries| - 1];
      assert Resolves(init, |cls|, |amos|) by {
        forall k | 0 <= k < |init| ensures (init[k] < 0 ==> -init[k] < |amos|) && (init[k] >= 0 ==> init[k] < |cls|) {
          assert init[k] == entries[k];
        }
      }
      Touched(cls, amos, init) + Constraint(cls, amos, entries[|entries| - 1])
  }

  /** The loop breaks right after emitting `s[i]`: a k-variable that brings
      `kCount` down to zero. */
  predicate Stops(s: seq<int>, kVars: set<int>, i: nat)
    requires i < |s|
  {
    s[i] in kVars && Hits(s[..i + 1], kVars) >= |kVars|
  }

  /** No variable other than 0 appears twice. */
  predicate NonzeroDistinct(s: seq<int>)
  {
    forall i, j :: 0 <= i < j < |s| && s[i] == s[j] ==> s[i] == 0
  }

  /** The set of entries of `s`. */
  function Elems(s: seq<int>): (r: set<int>)
    ensures forall x :: x in r <==> x in s
  {
    if s == [] then {} else Elems(s[..|s| - 1]) + {s[|s| - 1]}
  }

  /** Without repetitions, the hits count the k-variables emitted. */
  lemma {:induction false} HitsCount(s: seq<int>, kVars: set<int>)
    requires NonzeroDistinct(s) && 0 !in kVars
    ensures Hits(s, kVars) == |kVars * Elems(s)|
  {
    if s != [] {
      var s' := s[..|s| - 1];
      var y := s[|s| - 1];
      assert NonzeroDistinct(s') by {
        forall i, j | 0 <= i < j < |s'| && s'[i] == s'[j] ensures s'[i] == 0 {
          assert s'[i] == s[i] && s'[j] == s[j];
        }
      }
      HitsCount(s', kVars);
      if y in kVars {
        assert y !in s' by {
          forall i | 0 <= i < |s'| ensures s'[i] != y {
            assert s'[i] == s[i];
          }
        }
      }
      assert Elems(s) == Elems(s') + {y};
      InterAdd(kVars, Elems(s'), y);
    }
  }

  /** Adding an element to a set adds one to its intersection with `k` exactly when it is a new member of `k`. */
  lemma InterAdd(k: set<int>, a: set<int>, y: int)
    requires y in k ==> y !in a
    ensures |k * (a + {y})| == |k * a| + (if y in k then 1 else 0)
  {
    if y in k {
      assert k * (a + {y}) == k * a + {y};
    } else {
      assert k * (a + {y}) == k * a;
    }
  }

  /** A subset at least as large as its superset is all of it. */
  lemma SubsetFull(a: set<int>, b: set<int>)
    requires a <= b && |a| >= |b|
    ensures a == b
  {
    assert a * b == a;
    assert |b - a| == |b| - |b * a|;
    assert b - a == {};
  }

  /** When no k-variable is 0, the loop stops exactly when the variable just
      emitted is a k-variable and every k-variable has now been emitted. */
  lemma StopsWhenAllEmitted(s: seq<int>, kVars: set<int>, i: nat)
    requires NonzeroDistinct(s) && 0 !in kVars && i < |s|
    ensures Stops(s, kVars, i) <==> s[i] in kVars && kVars <= Elems(s[..i + 1])
  {
    var t := s[..i + 1];
    assert NonzeroDistinct(t) by {
      forall a, b | 0 <= a < b < |t| && t[a] == t[b] ensures t[a] == 0 {
        assert t[a] == s[a] && t[b] == s[b];
      }
    }
    HitsCount(t, kVars);
    if Hits(t, kVars) >= |kVars| {
      SubsetFull(kVars * Elems(t), kVars);
    }
    if kVars <= Elems(t) {
      assert kVars * Elems(t) == kVars;
    }
  }

  /** One emission of the loop of lines 190-206: `kCount` falls by one for
      a k-variable, and the loop breaks exactly when the new entry stops it. */
  lemma CountDown(s: seq<int>, x: int, kVars: set<int>, kCount: int)
    requires kCount == |kVars| - Hits(s, kVars)
    requires forall i :: 0 <= i < |s| ==> !Stops(s, kVars, i)
    ensures kCount - (if x in kVars then 1 else 0) == |kVars| - Hits(s + [x], kVars)
    ensures forall i :: 0 <= i < |s| ==> !Stops(s + [x], kVars, i)
    ensures Stops(s + [x], kVars, |s|) <==> x in kVars && kCount - 1 <= 0
  {
    forall i | 0 <= i < |s| ensures !Stops(s + [x], kVars, i) {
      assert !Stops(s, kVars, i);
      assert (s + [x])[..i + 1] == s[..i + 1] && (s + [x])[i] == s[i];
    }
    assert (s + [x])[..|s|] == s;
    assert (s + [x])[..|s| + 1] == s + [x];
  }

  // ---------------------------------------------------------------------
  // The observer

  class KnfCheck {
    var maxVar: int
    var maxCls: int
    var maxWeight: int
    var clauses: seq<seq<int>>
    var cards: seq<(seq<int>, int)>
    var amos: seq<seq<int>>
    var occCount: seq<int>
    var processed: seq<int>
    var posOcc: seq<seq<int>>
    var negOcc: seq<seq<int>>
    var kVariables: set<int>
    var fakeHeap: seq<int>

    /** The per-variable vectors have `max_var + 1` entries, every stored
        clause and AMO literal indexes them, and every occurrence entry names
        a stored clause or AMO constraint. */
    ghost predicate Valid()
      reads this`maxVar, this`clauses, this`amos, this`occCount, this`posOcc, this`negOcc
    {
      |occCount| == maxVar + 1 && |posOcc| == |occCount| && |negOcc| == |occCount|
      && LitsBelow(clauses, |occCount|) && LitsBelow(amos, |occCount|)
      && Entries(posOcc, |clauses|, |amos|) && Entries(negOcc, |clauses|, |amos|)
    }

    /** The flags cover every variable and the k-variables are variables. */
    ghost predicate Flags()
      reads this`processed, this`occCount, this`kVariables
    {
      |processed| == |occCount| && forall v :: v in kVariables ==> 0 <= v < |occCount|
    }

    constructor ()
      ensures Valid() && Flags() && maxWeight == -1 && maxVar == -1
      ensures clauses == [] && cards == [] && amos == [] && kVariables == {} && fakeHeap == []
    {
      maxWeight := -1;
      maxVar := -1;
      clauses, cards, amos := [], [], [];
      occCount, processed, posOcc, negOcc := [], [], [], [];
      kVariables, fakeHeap := {}, [];
    }

    /** `Header`: records the header and resizes the four per-variable
        vectors to `max_var + 1`, keeping what they held. */
    method Header(mv: int, mc: int, mw: int)
      requires Valid() && Flags() && mv + 1 >= |occCount|
      modifies this`maxVar, this`maxCls, this`maxWeight, this`occCount, this`processed, this`posOcc, this`negOcc
      ensures Valid() && Flags()
      ensures maxVar == mv && maxCls == mc && maxWeight == mw
      ensures occCount == Resize(old(occCount), mv + 1, 0) && processed == Resize(old(processed), mv + 1, 0)
      ensures posOcc == Resize(old(posOcc), mv + 1, []) && negOcc == Resize(old(negOcc), mv + 1, [])
    {
      maxVar, maxCls, maxWeight := mv, mc, mw;
      occCount := Resize(occCount, mv + 1, 0);
      processed := Resize(processed, mv + 1, 0);
      posOcc := Resize(posOcc, mv + 1, []);
      negOcc := Resize(negOcc, mv + 1, []);
    }

    /** `Clause`: an empty list is dropped; otherwise the clause is stored,
        its index joins the positive or negative list of each literal's
        variable, and each variable's count grows per occurrence. */
    method Clause(lits: seq<int>)
      requires Valid() && forall k :: 0 <= k < |lits| ==> Abs(lits[k]) < |occCount|
      modifies this`clauses, this`posOcc, this`negOcc, this`occCount
      ensures Valid()
      ensures lits == [] ==> (clauses == old(clauses) && posOcc == old(posOcc)
        && negOcc == old(negOcc) && occCount == old(occCount))
      ensures lits != [] ==> (clauses == old(clauses) + [lits]
        && posOcc == Push(old(posOcc), lits, |old(clauses)|, true)
        && negOcc == Push(old(negOcc), lits, |old(clauses)|, false)
        && occCount == Bump(old(occCount), lits))
    {
      if lits == [] {
        return;
      }
      var e := |clauses|;
      clauses := clauses + [lits];
      ghost var pos0, neg0, cnt0 := posOcc, negOcc, occCount;
      for i := 0 to |lits|
        invariant clauses == old(clauses) + [lits]
        invariant posOcc == Push(pos0, lits[..i], e, true) && negOcc == Push(neg0, lits[..i], e, false)
        invariant occCount == Bump(cnt0, lits[..i])
      {
        assert lits[..i + 1][..i] == lits[..i];
        var v := Abs(lits[i]);
        if lits[i] > 0 {
          posOcc := posOcc[v := posOcc[v] + [e]];
        } else {
          negOcc := negOcc[v := negOcc[v] + [e]];
        }
        occCount := occCount[v := occCount[v] + 1];
      }
      assert lits[..|lits|] == lits;
      EntriesGrow(pos0, e, |amos|, e + 1, |amos|);
      EntriesGrow(neg0, e, |amos|, e + 1, |amos|);
      PushEntries(pos0, lits, e, true, e + 1, |amos|);
      PushEntries(neg0, lits, e, false, e + 1, |amos|);
    }

    /** `CardinalityConstraint`: empty lists and bound 0 are dropped, bound 1
        is a clause, and any other constraint is stored. */
    method CardinalityConstraint(lits: seq<int>, bound: int)
      requires Valid()
      requires bound == 1 ==> forall k :: 0 <= k < |lits| ==> Abs(lits[k]) < |occCount|
      modifies this`clauses, this`posOcc, this`negOcc, this`occCount, this`cards
      ensures Valid()
      ensures lits == [] || bound == 0 ==> (clauses == old(clauses) && cards == old(cards)
        && posOcc == old(posOcc) && negOcc == old(negOcc) && occCount == old(occCount))
      ensures lits != [] && bound == 1 ==> (clauses == old(clauses) + [lits] && cards == old(cards)
        && posOcc == Push(old(posOcc), lits, |old(clauses)|, true)
        && negOcc == Push(old(negOcc), lits, |old(clauses)|, false)
        && occCount == Bump(old(occCount), lits))
      ensures lits != [] && bound != 0 && bound != 1 ==> (cards == old(cards) + [(lits, bound)]
        && clauses == old(clauses) && posOcc == old(posOcc) && negOcc == old(negOcc) && occCount == old(occCount))
    {
      if lits == [] || bound == 0 {
        return;
      }
      if bound == 1 {
        Clause(lits);
      } else {
        cards := cards + [(lits, bound)];
      }
    }

    /** `AMOConstraint`: bounds up to 4 are ignored; otherwise the literals
        are stored and `-(index)` joins the occurrence lists, so AMO
        constraint 0 is entered as 0, the same entry as clause 0. */
    method AMOConstraint(lits: seq<int>, bound: int)
      requires Valid()
      requires bound > 4 ==> forall k :: 0 <= k < |lits| ==> Abs(lits[k]) < |occCount|
      modifies this`amos, this`posOcc, this`negOcc
      ensures Valid()
      ensures bound <= 4 ==> (amos == old(amos) && posOcc == old(posOcc) && negOcc == old(negOcc))
      ensures bound > 4 ==> (amos == old(amos) + [lits]
        && posOcc == Push(old(posOcc), lits, -|old(amos)|, true)
        && negOcc == Push(old(negOcc), lits, -|old(amos)|, false))
    {
      if bound <= 4 {
        return;
      }
      amos := amos + [lits];
      var e := -(|amos| - 1);
      ghost var pos0, neg0 := posOcc, negOcc;
      for i := 0 to |lits|
        invariant amos == old(amos) + [lits]
        invariant posOcc == Push(pos0, lits[..i], e, true) && negOcc == Push(neg0, lits[..i], e, false)
      {
        assert lits[..i + 1][..i] == lits[..i];
        var v := Abs(lits[i]);
        if lits[i] > 0 {
          posOcc := posOcc[v := posOcc[v] + [e]];
        } else {
          negOcc := negOcc[v := negOcc[v] + [e]];
        }
      }
      assert lits[..|lits|] == lits;
      EntriesGrow(pos0, |clauses|, |amos| - 1, |clauses|, |amos|);
      EntriesGrow(neg0, |clauses|, |amos| - 1, |clauses|, |amos|);
      PushEntries(pos0, lits, e, true, |clauses|, |amos|);
      PushEntries(neg0, lits, e, false, |clauses|, |amos|);
    }

    /** A k-variable not yet seen with at least one clause occurrence. */
    ghost predicate Candidate(v: int)
      reads this`kVariables, this`processed, this`occCount
    {
      v in kVariables && 0 <= v < |processed| && v < |occCount| && processed[v] == 0 && occCount[v] > 0
    }

    /** What `get_variable_by_occur` returns: the candidate with the most
        occurrences, the smallest such id on a tie, or 0 without candidates. */
    ghost predicate ByOccurrence(r: int)
      reads this`kVariables, this`processed, this`occCount
    {
      (Candidate(r) || (r == 0 && forall v :: !Candidate(v)))
      && (Candidate(r) ==> forall v :: Candidate(v) ==> occCount[v] <= occCount[r] && (v < r ==> occCount[v] < occCount[r]))
    }

    /** `get_variable_by_occur`. `std::set` is visited in increasing order, and
        every k-variable is below `|processed|`, so the model visits the ids
        `0 .. max_var` and skips those that are not k-variables. */
    method GetVariableByOccur() returns (best: int)
      requires Flags()
      ensures ByOccurrence(best)
    {
      var bestOcc := 0;
      best := 0;
      for v := 0 to |processed|
        invariant (bestOcc == 0 && best == 0 && forall u :: 0 <= u < v ==> !Candidate(u))
          || (Candidate(best) && best < v && bestOcc == occCount[best])
        invariant Candidate(best) ==> forall u :: 0 <= u < v && Candidate(u) ==>
          occCount[u] <= bestOcc && (u < best ==> occCount[u] < bestOcc)
      {
        if v in kVariables && processed[v] == 0 && occCount[v] > bestOcc {
          best, bestOcc := v, occCount[v];
        }
      }
    }

    /** `get_next_variable`: with an empty work list, the variable by
        occurrence; otherwise the first work-list element of largest score,
        which is removed from the list. */
    method GetNextVariable(score: int -> real) returns (r: int)
      requires Flags()
      modifies this`fakeHeap
      ensures old(fakeHeap) == [] ==> fakeHeap == [] && ByOccurrence(r)
      ensures old(fakeHeap) != [] ==> (r == old(fakeHeap)[ArgMax(old(fakeHeap), score)]
        && fakeHeap == old(fakeHeap)[..ArgMax(old(fakeHeap), score)] + old(fakeHeap)[ArgMax(old(fakeHeap), score) + 1..])
    {
      if fakeHeap == [] {
        r := GetVariableByOccur();
        return;
      }
      var i := ArgMax(fakeHeap, score);
      r := fakeHeap[i];
      fakeHeap := fakeHeap[..i] + fakeHeap[i + 1..];
    }

    /** No entry 0 is read without a clause 0. */
    ghost predicate Resolvable()
      reads this`clauses, this`posOcc, this`negOcc
    {
      |clauses| > 0
      || ((forall v, k :: 0 <= v < |posOcc| && 0 <= k < |posOcc[v]| ==> posOcc[v][k] != 0)
        && (forall v, k :: 0 <= v < |negOcc| && 0 <= k < |negOcc[v]| ==> negOcc[v][k] != 0))
    }

    /** The innermost loop (lines 245-262) without the score updates. */
    method Touch(lits: seq<int>)
      requires |processed| == |occCount|
      requires forall k :: 0 <= k < |lits| ==> Abs(lits[k]) < |processed|
      modifies this`processed, this`fakeHeap
      ensures Work(processed, fakeHeap) == Seen(Work(old(processed), old(fakeHeap)), lits)
    {
      ghost var w0 := Work(processed, fakeHeap);
      for i := 0 to |lits|
        invariant Work(processed, fakeHeap) == Seen(w0, lits[..i])
      {
        assert lits[..i + 1][..i] == lits[..i];
        var v := Abs(lits[i]);
        if processed[v] == 2 {
          continue;
        }
        if processed[v] == 0 {
          processed := processed[v := 1];
          fakeHeap := fakeHeap + [v];
        }
      }
      assert lits[..|lits|] == lits;
    }

    /** The loop of lines 223-263 over one occurrence list. */
    method Visit(entries: seq<int>)
      requires |processed| == |occCount| && LitsBelow(clauses, |occCount|) && LitsBelow(amos, |occCount|)
      requires Resolves(entries, |clauses|, |amos|)
      modifies this`processed, this`fakeHeap
      ensures Work(processed, fakeHeap) == Seen(Work(old(processed), old(fakeHeap)), Touched(clauses, amos, entries))
    {
      ghost var w0 := Work(processed, fakeHeap);
      for i := 0 to |entries|
        invariant |processed| == |occCount|
        invariant Work(processed, fakeHeap) == Seen(w0, Touched(clauses, amos, entries[..i]))
      {
        assert entries[..i + 1][..i] == entries[..i];
        var lits := Constraint(clauses, amos, entries[i]);
        assert Touched(clauses, amos, entries[..i + 1]) == Touched(clauses, amos, entries[..i]) + lits;
        Touch(lits);
        SeenAppend(w0, Touched(clauses, amos, entries[..i]), lits);
      }
      assert entries[..|entries|] == entries;
    }

    /** Lines 210-266 without the scores: the constraints of the positive
        occurrences of `v`, then of its negative ones, are touched. The work
        list stays well formed and emitted variables stay emitted. */
    method Expand(v: int)
      requires Valid() && Flags() && Resolvable() && 0 <= v < |occCount|
      modifies this`processed, this`fakeHeap
      ensures Flags()
      ensures Resolves(posOcc[v], |clauses|, |amos|) && Resolves(negOcc[v], |clauses|, |amos|)
      ensures Work(processed, fakeHeap)
        == Seen(Work(old(processed), old(fakeHeap)), Touched(clauses, amos, posOcc[v]) + Touched(clauses, amos, negOcc[v]))
      ensures HeapOk(Work(old(processed), old(fakeHeap))) ==> HeapOk(Work(processed, fakeHeap))
      ensures forall u :: 0 <= u < |processed| && old(processed)[u] == 2 ==> processed[u] == 2
    {
      assert Resolves(posOcc[v], |clauses|, |amos|) by {
        forall k | 0 <= k < |posOcc[v]| ensures (posOcc[v][k] < 0 ==> -posOcc[v][k] < |amos|) && (posOcc[v][k] >= 0 ==> posOcc[v][k] < |clauses|) {
          assert EntryOk(posOcc[v][k], |clauses|, |amos|);
        }
      }
      assert Resolves(negOcc[v], |clauses|, |amos|) by {
        forall k | 0 <= k < |negOcc[v]| ensures (negOcc[v][k] < 0 ==> -negOcc[v][k] < |amos|) && (negOcc[v][k] >= 0 ==> negOcc[v][k] < |clauses|) {
          assert EntryOk(negOcc[v][k], |clauses|, |amos|);
        }
      }
      ghost var w0 := Work(processed, fakeHeap);
      ghost var tp, tn := Touched(clauses, amos, posOcc[v]), Touched(clauses, amos, negOcc[v]);
      Visit(posOcc[v]);
      Visit(negOcc[v]);
      SeenAppend(w0, tp, tn);
      SeenFlags(w0, tp + tn);
      if HeapOk(w0) {
        SeenKeepsHeap(w0, tp + tn);
      }
    }

    /** Every emitted variable is a variable with flag 2. */
    ghost predicate Emitted(ordered: seq<int>)
      reads this`processed
    {
      forall i :: 0 <= i < |ordered| ==> 0 <= ordered[i] < |processed| && processed[ordered[i]] == 2
    }

    /** Before the first emission the work list is `{first_variable}` and no
        flag is set; afterwards the work list is well formed. */
    ghost predicate WorkOk(ordered: seq<int>, first: int)
      reads this`processed, this`fakeHeap
    {
      (|ordered| == 0 ==> fakeHeap == [first] && forall v :: 0 <= v < |processed| ==> processed[v] == 0)
      && (|ordered| > 0 ==> HeapOk(Work(processed, fakeHeap)))
    }

    /** Lines 193-199: the next variable is chosen, appended to the order and
        flagged 2. It is a variable, and not one emitted before unless it is 0. */
    method Emit(score: int -> real, ghost ordered: seq<int>, ghost first: int) returns (next: int)
      requires Flags() && 0 <= first < |processed|
      requires Emitted(ordered) && NonzeroDistinct(ordered) && WorkOk(ordered, first)
      modifies this`processed, this`fakeHeap
      ensures Flags()
      ensures 0 <= next < |old(processed)| && processed == old(processed)[next := 2]
      ensures old(fakeHeap) == [] ==> fakeHeap == [] && old(ByOccurrence(next))
      ensures old(fakeHeap) != [] ==> exists i :: (0 <= i < |old(fakeHeap)| && next == old(fakeHeap)[i]
        && fakeHeap == old(fakeHeap)[..i] + old(fakeHeap)[i + 1..])
      ensures Emitted(ordered + [next]) && NonzeroDistinct(ordered + [next])
      ensures HeapOk(Work(processed, fakeHeap))
    {
      ghost var h := fakeHeap;
      next := GetNextVariable(score);
      ghost var i := if h == [] then 0 else ArgMax(h, score);
      assert h != [] ==> next == h[i] && fakeHeap == h[..i] + h[i + 1..];
      assert next != 0 ==> next !in ordered by {
        if next in ordered {
          var j :| 0 <= j < |ordered| && ordered[j] == next;
          assert h != [] ==> next in h;
        }
      }
      if |ordered| > 0 && h != [] {
        RemoveKeepsHeap(processed, h, i);
      }
      processed := processed[next := 2];
      var o := ordered + [next];
      forall a, b | 0 <= a < b < |o| && o[a] == o[b] ensures o[a] == 0 {
        if b == |ordered| {
          assert o[a] == ordered[a];
        } else {
          assert o[a] == ordered[a] && o[b] == ordered[b];
        }
      }
    }

    /** `get_proximity` without the scores, which are computed from the
        variables emitted so far and so are taken as a function `score` of
        that order. The k-variables are those of the first cardinality
        constraint, and the work list starts as the variable by occurrence. */
    method GetProximity(score: seq<int> -> int -> real) returns (ordered: seq<int>)
      requires Valid() && Flags() && Resolvable() && |cards| > 0
      requires forall k :: 0 <= k < |cards[0].0| ==> Abs(cards[0].0[k]) < |occCount|
      requires forall v :: 0 <= v < |processed| ==> processed[v] == 0
      modifies this`kVariables, this`fakeHeap, this`processed
      ensures kVariables == old(kVariables) + VarsOf(cards[0].0)
      ensures |ordered| <= maxVar || ordered == []
      ensures |ordered| >= maxVar || (|ordered| > 0 && Stops(ordered, kVariables, |ordered| - 1))
      ensures forall i :: 0 <= i < |ordered| - 1 ==> !Stops(ordered, kVariables, i)
      ensures NonzeroDistinct(ordered)
      ensures Emitted(ordered)
    {
      AddKVariables(cards[0].0);
      var first := GetVariableByOccur();
      fakeHeap := [first];
      ordered := Run(score, first);
    }

    /** Lines 168-169: the variables of `lits` become k-variables. */
    method AddKVariables(lits: seq<int>)
      requires Flags() && forall k :: 0 <= k < |lits| ==> Abs(lits[k]) < |occCount|
      modifies this`kVariables
      ensures Flags() && kVariables == old(kVariables) + VarsOf(lits)
    {
      for k := 0 to |lits|
        invariant kVariables == old(kVariables) + VarsOf(lits[..k]) && Flags()
      {
        assert lits[..k + 1][..k] == lits[..k];
        kVariables := kVariables + {Abs(lits[k])};
      }
      assert lits[..|lits|] == lits;
    }

    /** One iteration of the loop of lines 190-267: emit, count down the
        k-variables, stop after the last one or expand the emitted variable. */
    method RunStep(score: int -> real, ordered: seq<int>, first: int, kCount: int)
      returns (ordered': seq<int>, kCount': int, stop: bool)
      requires Valid() && Flags() && Resolvable() && 0 <= first < |processed|
      requires WorkOk(ordered, first) && Emitted(ordered) && NonzeroDistinct(ordered)
      requires kCount == |kVariables| - Hits(ordered, kVariables)
      requires forall i :: 0 <= i < |ordered| ==> !Stops(ordered, kVariables, i)
      modifies this`fakeHeap, this`processed
      ensures |ordered'| == |ordered| + 1 && ordered'[..|ordered|] == ordered
      ensures Flags() && Emitted(ordered') && NonzeroDistinct(ordered')
      ensures stop <==> Stops(ordered', kVariables, |ordered|)
      ensures forall i :: 0 <= i < |ordered| ==> !Stops(ordered', kVariables, i)
      ensures !stop ==> WorkOk(ordered', first) && kCount' == |kVariables| - Hits(ordered', kVariables)
    {
      var next := Emit(score, ordered, first);
      CountDown(ordered, next, kVariables, kCount);
      ordered' := ordered + [next];
      kCount' := kCount;
      stop := false;
      if next in kVariables {
        kCount' := kCount - 1;
        if kCount' <= 0 {
          stop := true;
          return;
        }
      }
      Expand(next);
    }

    /** The loop of lines 190-267. It emits at most `max_var` variables, no
        variable but 0 twice, and stops right after the emission that brings
        the number of k-variable emissions to the number of k-variables. */
    method Run(score: seq<int> -> int -> real, first: int) returns (ordered: seq<int>)
      requires Valid() && Flags() && Resolvable()
      requires maxVar > 0 ==> 0 <= first < |processed|
      requires WorkOk([], first)
      modifies this`fakeHeap, this`processed
      ensures |ordered| <= maxVar || ordered == []
      ensures |ordered| >= maxVar || (|ordered| > 0 && Stops(ordered, kVariables, |ordered| - 1))
      ensures forall i :: 0 <= i < |ordered| - 1 ==> !Stops(ordered, kVariables, i)
      ensures NonzeroDistinct(ordered)
      ensures Emitted(ordered)
    {
      var nprocessed := 0;
      var kCount := |kVariables|;
      ordered := [];
      while nprocessed < maxVar
        invariant nprocessed == |ordered| && (nprocessed <= maxVar || nprocessed == 0)
        invariant Flags()
        invariant WorkOk(ordered, first) && Emitted(ordered) && NonzeroDistinct(ordered)
        invariant kCount == |kVariables| - Hits(ordered, kVariables)
        invariant forall i :: 0 <= i < |ordered| ==> !Stops(ordered, kVariables, i)
      {
        var stop;
        ordered, kCount, stop := RunStep(score(ordered), ordered, first, kCount);
        nprocessed := nprocessed + 1;
        if stop {
          break;
        }
      }
    }
  }
}
