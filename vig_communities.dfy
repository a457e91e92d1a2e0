/** `tools/VIG_ordering.py`, steps 2 and 3 of `main`: the variable incidence
    graph of the clauses and the retention of the Louvain partitions with
    the most communities. */
module VigCommunities {
  import opened Common
  import opened Sorting
  // ---------------------------------------------------------------------
  // 2. The variable incidence graph

  /** An undirected edge, smaller end first. */
  function Edge(a: int, b: int): (int, int) { if a <= b then (a, b) else (b, a) }

  /** The edges `combinations(c, 2)` gives one clause: a pair for every two positions. */
  function ClauseEdges(c: seq<int>): set<(int, int)>
  {
    set i, j | 0 <= i < j < |c| :: Edge(c[i], c[j])
  }

  /** The edges added by the loop over `_clauses`. */
  function Edges(cls: seq<seq<int>>): set<(int, int)>
  {
    if cls == [] then {} else Edges(cls[..|cls| - 1]) + ClauseEdges(cls[|cls| - 1])
  }

  /** `a` and `b` sit at two positions of one clause. */
  ghost predicate SameClause(cls: seq<seq<int>>, a: int, b: int)
  {
    exists k, i, j :: 0 <= k < |cls| && 0 <= i < j < |cls[k]| && Edge(cls[k][i], cls[k][j]) == Edge(a, b)
  }

  /** The graph has an edge between two variables exactly when some clause holds both. */
  lemma {:induction false} EdgesMembers(cls: seq<seq<int>>, a: int, b: int)
    ensures Edge(a, b) in Edges(cls) <==> SameClause(cls, a, b)
  {
    if cls != [] {
      var n := |cls| - 1;
      var cls' := cls[..n];
      EdgesMembers(cls', a, b);
      if Edge(a, b) in ClauseEdges(cls[n]) {
        var i, j :| 0 <= i < j < |cls[n]| && Edge(cls[n][i], cls[n][j]) == Edge(a, b);
        assert SameClause(cls, a, b);
      }
      if SameClause(cls', a, b) {
        var k, i, j :| 0 <= k < |cls'| && 0 <= i < j < |cls'[k]| && Edge(cls'[k][i], cls'[k][j]) == Edge(a, b);
        assert cls[k] == cls'[k];
      }
      if SameClause(cls, a, b) {
        var k, i, j :| 0 <= k < |cls| && 0 <= i < j < |cls[k]| && Edge(cls[k][i], cls[k][j]) == Edge(a, b);
        if k < n {
          assert cls'[k] == cls[k];
        }
      }
    }
  }

  datatype Graph = Graph(nodes: set<int>, edges: set<(int, int)>)

  /** The ends of a set of edges: `add_edges_from` adds them as nodes. */
  function Endpoints(es: set<(int, int)>): set<int>
  {
    (set e | e in es :: e.0) + (set e | e in es :: e.1)
  }

  /** `range(1, total_num_vars + 1)`, the nodes added first. */
  function NodeRange(total: int): (r: set<int>)
    ensures forall v :: v in r <==> 1 <= v <= total
  {
    if total < 1 then {} else NodeRange(total - 1) + {total}
  }

  function GraphOf(cls: seq<seq<int>>, total: int): Graph
  {
    Graph(NodeRange(total) + Endpoints(Edges(cls)), Edges(cls))
  }

  /** Step 2 of `main`: nodes 1..total_num_vars and the clause-pair edges. */
  method BuildGraph(cls: seq<seq<int>>, total: int) returns (g: Graph)
    ensures g == GraphOf(cls, total)
    ensures forall v :: 1 <= v <= total ==> v in g.nodes
    ensures forall a, b :: Edge(a, b) in g.edges <==> SameClause(cls, a, b)
  {
    var edges: set<(int, int)> := {};
    for k := 0 to |cls|
      invariant edges == Edges(cls[..k])
    {
      assert cls[..k + 1][..k] == cls[..k];
      edges := edges + ClauseEdges(cls[k]);
    }
    assert cls[..|cls|] == cls;
    g := Graph(NodeRange(total) + Endpoints(edges), edges);
    forall a, b ensures Edge(a, b) in g.edges <==> SameClause(cls, a, b) {
      EdgesMembers(cls, a, b);
    }
  }

  // ---------------------------------------------------------------------
  // 3. Community retention

  /** A list of communities, each a list of variables. */
  type Partition = seq<seq<int>>

  function Id(x: int): int { x }

  /** `sorted(map(sorted, communities))`. */
  function Canon(c: Partition): (r: Partition)
    ensures |r| == |c|
  {
    LexSort(SortAll(c, Id))
  }

  /** A canonical partition has as many groups as the original, each group
      an ascending rearrangement of an original one, the groups in
      lexicographic order. */
  lemma CanonShape(c: Partition)
    ensures |Canon(c)| == |c|
    ensures LexSorted(Canon(c))
    ensures forall g :: g in Canon(c) ==>
      SortedBy(g, Id) && exists i :: 0 <= i < |c| && multiset(g) == multiset(c[i])
  {
    var inner := SortAll(c, Id);
    LexSortSorted(inner);
    LexSortPermutation(inner);
    forall g | g in Canon(c)
      ensures SortedBy(g, Id) && exists i :: 0 <= i < |c| && multiset(g) == multiset(c[i])
    {
      assert g in multiset(Canon(c));
      assert g in multiset(inner);
      var i :| 0 <= i < |inner| && inner[i] == g;
      StableSortSorted(c[i], Id);
      StableSortPermutation(c[i], Id);
    }
  }

  /** `max_num_communities`: the largest group count seen (0 for none). */
  function MaxLen(ps: seq<Partition>): (m: nat)
    ensures forall i :: 0 <= i < |ps| ==> |ps[i]| <= m
    ensures ps != [] ==> exists i :: 0 <= i < |ps| && |ps[i]| == m
  {
    if ps == [] then 0
    else
      var m0 := MaxLen(ps[..|ps| - 1]);
      var l := |ps[|ps| - 1]|;
      assert forall i :: 0 <= i < |ps| - 1 ==> ps[..|ps| - 1][i] == ps[i];
      if m0 >= l then m0 else l
  }

  /** The partitions with `m` groups, in the order given. */
  function Filter(ps: seq<Partition>, m: nat): (r: seq<Partition>)
    ensures forall p :: p in r <==> p in ps && |p| == m
  {
    if ps == [] then []
    else
      var last := ps[|ps| - 1];
      assert forall p :: p in ps <==> p in ps[..|ps| - 1] || p == last;
      Filter(ps[..|ps| - 1], m) + (if |last| == m then [last] else [])
  }

  /** `best_communities` after the passes that produced `ps`: those attaining
      the maximum group count, in pass order. */
  function Kept(ps: seq<Partition>): seq<Partition>
  {
    Filter(ps, MaxLen(ps))
  }

  lemma {:induction false} FilterNone(ps: seq<Partition>, m: nat)
    requires forall i :: 0 <= i < |ps| ==> |ps[i]| < m
    ensures Filter(ps, m) == []
  {
    if ps != [] {
      assert forall i :: 0 <= i < |ps| - 1 ==> ps[..|ps| - 1][i] == ps[i];
      FilterNone(ps[..|ps| - 1], m);
    }
  }

  /** One more pass: a strictly larger group count clears the list and keeps
      the new partition alone, an equal count appends it, a smaller one is
      dropped. */
  lemma KeptStep(ps: seq<Partition>, p: Partition)
    ensures MaxLen(ps + [p]) == if |p| > MaxLen(ps) then |p| else MaxLen(ps)
    ensures Kept(ps + [p]) ==
      if |p| > MaxLen(ps) then [p] else if |p| == MaxLen(ps) then Kept(ps) + [p] else Kept(ps)
  {
    var q := ps + [p];
    assert q[..|q| - 1] == ps;
    if |p| > MaxLen(ps) {
      FilterNone(ps, |p|);
    }
  }

  /** Some partition is kept as soon as one pass ran. */
  lemma KeptNonEmpty(ps: seq<Partition>)
    ensures Kept(ps) == [] <==> ps == []
  {
    if ps != [] {
      var i :| 0 <= i < |ps| && |ps[i]| == MaxLen(ps);
      assert ps[i] in Kept(ps);
    }
  }

  /** The canonical partitions of passes 0..n-1, Louvain seeded with the pass index. */
  function Runs(g: Graph, louvain: (Graph, nat) -> Partition, n: nat): (r: seq<Partition>)
    ensures |r| == n
  {
    if n == 0 then [] else Runs(g, louvain, n - 1) + [Canon(louvain(g, n - 1))]
  }

  /** No stop test before pass `n` succeeded, stated pass by pass. */
  ghost predicate NoStop(stop: nat -> bool, n: nat)
  {
    n == 0 || (NoStop(stop, n - 1) && !stop(n - 1))
  }

  lemma {:induction false} NoStopAll(stop: nat -> bool, n: nat)
    requires NoStop(stop, n)
    ensures forall i :: 0 <= i < n ==> !stop(i)
  {
    if n > 0 {
      NoStopAll(stop, n - 1);
    }
  }

  /** `n` passes ran: `stop(i)`, the timeout test before pass `i`, failed
      for each of them (NoStopAll), and the loop ended at `iteration` or at
      the first test that succeeded. */
  ghost predicate RanPasses(iteration: int, stop: nat -> bool, n: nat)
  {
    var limit := if iteration > 0 then iteration else 0;
    n <= limit && NoStop(stop, n) && (n < limit ==> stop(n))
  }

  /** No pass ran exactly when the limit is not positive or the first stop
      test succeeded. */
  lemma NoPasses(iteration: int, stop: nat -> bool, n: nat)
    requires RanPasses(iteration, stop, n)
    ensures n == 0 <==> iteration <= 0 || stop(0)
  {
    NoStopAll(stop, n);
  }

  /** The body of the community loop: a strictly larger group count clears
      `best_communities` and keeps the new partition, an equal one appends it. */
  method Retain(best: seq<Partition>, maxNum: nat, ghost ps: seq<Partition>, c: Partition)
    returns (best': seq<Partition>, maxNum': nat)
    requires best == Kept(ps) && maxNum == MaxLen(ps)
    ensures best' == Kept(ps + [c]) && maxNum' == MaxLen(ps + [c])
  {
    KeptStep(ps, c);
    if |c| > maxNum {
      maxNum' := |c|;
      best' := [c];
    } else if |c| == maxNum {
      maxNum' := maxNum;
      best' := best + [c];
    } else {
      maxNum' := maxNum;
      best' := best;
    }
  }

  /** One pass of the community loop: Louvain seeded with the pass index,
      canonicalised, then retained or dropped. */
  method Pass(g: Graph, louvain: (Graph, nat) -> Partition, n: nat, best: seq<Partition>, maxNum: nat)
    returns (best': seq<Partition>, maxNum': nat)
    requires best == Kept(Runs(g, louvain, n)) && maxNum == MaxLen(Runs(g, louvain, n))
    ensures best' == Kept(Runs(g, louvain, n + 1)) && maxNum' == MaxLen(Runs(g, louvain, n + 1))
  {
    var communities := louvain(g, n);
    var c := Canon(communities);
    best', maxNum' := Retain(best, maxNum, Runs(g, louvain, n), c);
  }

  /** Step 3 of `main`: the community loop with `clear` and `append`. */
  method Communities(g: Graph, iteration: int, stop: nat -> bool, louvain: (Graph, nat) -> Partition)
    returns (best: seq<Partition>, passes: nat)
    ensures RanPasses(iteration, stop, passes)
    ensures best == Kept(Runs(g, louvain, passes))
  {
    best := [];
    var maxNum := 0;
    passes := 0;
    var limit := if iteration > 0 then iteration else 0;
    while passes < limit
      invariant passes <= limit
      invariant NoStop(stop, passes)
      invariant best == Kept(Runs(g, louvain, passes)) && maxNum == MaxLen(Runs(g, louvain, passes))
    {
      if stop(passes) {
        break;
      }
      best, maxNum := Pass(g, louvain, passes, best, maxNum);
      passes := passes + 1;
    }
  }

}
