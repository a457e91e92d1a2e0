/** The driver of tools/order_and_encode.py: option rewriting in `run` and
    `generate_cnf` (header, ordering dispatch, coverage, rename, output).
    The ordering scripts, `random.shuffle`, PySAT and the files are parameters. */
module Pipeline {
  import opened Wrappers
  import opened Common
  import opened Numerals
  import opened Sorting
  import opened LiteralOrder
  import opened KnfParse
  import opened CnfWriter

  datatype OptionError =
    | NoOrdering     // `"random_fixed" in None`: TypeError
    | BadSeed        // `int(name[13:])`: ValueError

  /** The rewriting of `-v` in `run`: `PAMO+Occur` is PAMO with the occurrence
      fallback at one million clauses, and any name containing `random_fixed`
      carries its seed from the fourteenth character on. Returns the strategy
      name, `occLimit` and the seed. */
  function RewriteOptions(name: Option<string>, occLimit: int, seed: int): Result<(string, int, int), OptionError>
  {
    match name
    case None => Err(NoOrdering)
    case Some(n) =>
      var (n1, limit) := if n == "PAMO+Occur" then ("PAMO", 1000000) else (n, occLimit);
      if Contains(n1, "random_fixed") then
        match PyInt(DropPrefix(n1, 13))
        case None => Err(BadSeed)
        case Some(s) => Ok(("random_fixed", limit, s))
      else Ok((n1, limit, seed))
  }

  lemma ContainsPrefix(s: string, sub: string)
    requires |sub| <= |s| && s[..|sub|] == sub
    ensures Contains(s, sub)
  {}

  lemma {:induction false} ContainsLonger(s: string, sub: string)
    requires Contains(s, sub)
    ensures |sub| <= |s|
  {
    if !(|sub| <= |s| && s[..|sub|] == sub) {
      ContainsLonger(s[1..], sub);
    }
  }

  /** `PAMO+Occur` is PAMO with `occLimit` one million. */
  lemma PamoOccurRewrite(occLimit: int, seed: int)
    ensures RewriteOptions(Some("PAMO+Occur"), occLimit, seed) == Ok(("PAMO", 1000000, seed))
  {
    assert !Contains("PAMO", "random_fixed") by {
      if Contains("PAMO", "random_fixed") { ContainsLonger("PAMO", "random_fixed"); }
    }
  }

  /** `random_fixed_<n>` selects the fixed random order with seed n. */
  lemma RandomFixedSeed(n: int, occLimit: int)
    ensures RewriteOptions(Some("random_fixed_" + IntToString(n)), occLimit, 0) == Ok(("random_fixed", occLimit, n))
  {
    var name := "random_fixed_" + IntToString(n);
    assert name[..12] == "random_fixed";
    ContainsPrefix(name, "random_fixed");
    assert DropPrefix(name, 13) == IntToString(n);
    PyIntOfIntToString(n);
  }

  /** A name without `random_fixed` and other than `PAMO+Occur` passes unchanged. */
  lemma OtherNamesUnchanged(n: string, occLimit: int, seed: int)
    requires n != "PAMO+Occur" && !Contains(n, "random_fixed")
    ensures RewriteOptions(Some(n), occLimit, seed) == Ok((n, occLimit, seed))
  {}

  /** The ordering scripts `generate_cnf` can call. */
  datatype Script = Graph | GraphOcc | Occurrence | Proximity | Pamo

  /** Where the rank map comes from. */
  datatype Strategy = FromFile | Natural | RandomFixed | RunScript(script: Script)

  /** The dispatch of `generate_cnf` on `-t` and `-v`. The occurrence fallback
      (`occLimit > 0 and max_cls >= occLimit`) is checked after `graph` and
      `graphOcc`, so it overrides every later name, unknown names included. */
  function ResolveStrategy(tempOrdered: bool, name: string, occLimit: int, maxCls: int): Option<Strategy>
  {
    if tempOrdered then Some(FromFile)
    else if name == "natural" then Some(Natural)
    else if name == "random_fixed" then Some(RandomFixed)
    else if name == "graph" then Some(RunScript(Graph))
    else if name == "graphOcc" then Some(RunScript(GraphOcc))
    else if name == "occurence" || (occLimit > 0 && maxCls >= occLimit) then Some(RunScript(Occurrence))
    else if name == "proximity" then Some(RunScript(Proximity))
    else if name == "PAMO" then Some(RunScript(Pamo))
    else None
  }

  /** The fallback forces the occurrence ordering for proximity, PAMO and any
      other name not checked before it, and never for the graph orderings. */
  lemma OccurrenceFallback(name: string, occLimit: int, maxCls: int)
    requires occLimit > 0 && maxCls >= occLimit
    ensures name == "graph" ==> ResolveStrategy(false, name, occLimit, maxCls) == Some(RunScript(Graph))
    ensures name == "graphOcc" ==> ResolveStrategy(false, name, occLimit, maxCls) == Some(RunScript(GraphOcc))
    ensures name !in {"natural", "random_fixed", "graph", "graphOcc"} ==>
      ResolveStrategy(false, name, occLimit, maxCls) == Some(RunScript(Occurrence))
  {}

  /** The seven names the dispatch of `generate_cnf` knows. */
  const OrderingNames: set<string> := {"natural", "random_fixed", "graph", "graphOcc", "occurence", "proximity", "PAMO"}

  /** Without the fallback, a name outside the known ones is refused. */
  lemma UnknownOrdering(name: string, occLimit: int, maxCls: int)
    requires !(occLimit > 0 && maxCls >= occLimit)
    ensures ResolveStrategy(false, name, occLimit, maxCls).None? <==> name !in OrderingNames
  {}

  /** Without a header `max_var` and `max_cls` stay None. The only path that
      never reads them is the refusal of an unknown name (lines 408-410) when
      `occLimit > 0` is false, so the fallback test stops before `max_cls`;
      every other path raises a TypeError on None. */
  predicate RefusedWithoutHeader(o: Options)
  {
    !o.tempOrdered && o.occLimit <= 0 && o.ordering !in OrderingNames
  }

  /** That refusal is the dispatch's own, whatever `max_cls` would have been. */
  lemma RefusedWithoutHeaderResolves(o: Options, maxCls: int)
    ensures RefusedWithoutHeader(o) <==>
      !o.tempOrdered && o.occLimit <= 0 && ResolveStrategy(o.tempOrdered, o.ordering, o.occLimit, maxCls).None?
  {
    if !o.tempOrdered && o.occLimit <= 0 {
      UnknownOrdering(o.ordering, o.occLimit, maxCls);
    }
  }

  /** The loop `for i in range(n): var_map.append(i)`. */
  method RangeList(n: int) returns (r: seq<int>)
    ensures r == Identity(n)
  {
    r := [];
    var i := 0;
    while i < n
      invariant 0 <= i <= (if n > 0 then n else 0) && r == Identity(i)
    {
      assert Identity(i) + [i] == Identity(i + 1);
      r := r + [i];
      i := i + 1;
    }
  }

  datatype PipelineError =
    | HeaderMissing(e: HeaderError)   // `tokens[0]` IndexError, or max_var None
    | HeaderMalformed                 // `int(tokens[2])`, `int(tokens[3])`
    | UnknownOrderingName             // "variable ordering not recognized"
    | OrderingFile(o: OrderError)     // `parse_ordering`
    | OrderUnranked                   // `sort_literals` of 1..max_var
    | KnfLine(p: ParseError)          // `parse_knf`, `parse_knf_remove_soft`
    | NoCoverageIndex                 // `lst.index`: ValueError
    | CoverageFailed(c: CoverageError)
    | RenameFailed                    // IndexError in the rename block or `rename_knf`
    | WriteFailed(w: WriteError)
    | NoOutputPath                    // `write_wcnf` with no `-c`: `open(None, 'w')` raises TypeError

  /** `int(tokens[2])` and `int(tokens[3])` of the header line. */
  function HeaderCounts(line: seq<Token>): Option<(int, int)>
  {
    if |line| >= 3 && line[2].Num? && |line| >= 4 && line[3].Num? then Some((line[2].value, line[3].value)) else None
  }

  /** Line `h` is the first header and gives `max_var` and `max_cls`. */
  ghost predicate HeaderGives(lines: seq<seq<Token>>, h: int, maxVar: int, maxCls: int)
  {
    0 <= h < |lines| && IsHeader(lines[h]) && (forall j :: 0 <= j < h ==> lines[j] != [] && !IsHeader(lines[j])) &&
    HeaderCounts(lines[h]) == Some((maxVar, maxCls))
  }

  /** The rank map a strategy yields: `orderFile` is the file `parse_ordering`
      reads (the `-t` file or the ordering script's output), `shuffle` stands for
      `random.shuffle`. */
  method BuildVarMap(s: Strategy, maxVar: int, orderFile: seq<seq<Token>>, shuffle: seq<int> -> seq<int>)
    returns (r: Result<seq<int>, PipelineError>)
    ensures s == Natural ==> r == Ok(Identity(maxVar + 1))
    ensures s == RandomFixed ==> r == Ok([0] + shuffle(Range1(maxVar)))
    ensures s.FromFile? || s.RunScript? ==>
      var ts := Flatten(orderFile);
      && (r.Ok? <==> Acceptable(ts, |Identity(maxVar + 1)|))
      && (r.Ok? ==>
            |r.value| == |Identity(maxVar + 1)| &&
            (forall j :: 0 <= j < |ts| ==> r.value[Abs(ts[j].value)] == j + 1) &&
            (forall v :: 0 <= v < |r.value| && v !in VarsOf(ts) ==> r.value[v] == v))
    ensures r.Err? ==> r.error.OrderingFile?
    ensures r.Ok? ==> RanksFor(s, maxVar, orderFile, shuffle, r.value)
  {
    match s {
      case Natural =>
        var m := RangeList(maxVar + 1);
        return Ok(m);
      case RandomFixed =>
        return Ok([0] + shuffle(Range1(maxVar)));
      case _ =>
        var m := RangeList(maxVar + 1);
        var parsed := ParseOrdering(orderFile, m);
        if parsed.Err? {
          return Err(OrderingFile(parsed.error));
        }
        return Ok(parsed.value);
    }
  }

  /** The random fixed map is a permutation of 0..max_var that keeps 0 at 0. */
  lemma RandomFixedPermutation(perm: seq<int>, maxVar: nat)
    requires multiset(perm) == multiset(Range1(maxVar))
    ensures var m := [0] + perm; m[0] == 0 && multiset(m) == multiset(Identity(maxVar + 1))
  {
    assert Identity(maxVar + 1) == [0] + Range1(maxVar);
  }

  /** Python's `list(set(s))`: the elements of a set in some order. */
  method Enumerate(s: set<int>) returns (r: seq<int>)
    ensures Distinct(r) && |r| == |s| && forall x :: x in r <==> x in s
  {
    r := [];
    var rest := s;
    while exists y :: y in rest
      invariant forall x :: x in s <==> x in rest || x in r
      invariant forall x :: x in r ==> x !in rest
      invariant Distinct(r) && |r| + |rest| == |s|
      decreases |rest|
    {
      var x :| x in rest;
      r := r + [x];
      rest := rest - {x};
    }
  }

  /** The command line options of `generate_cnf`. */
  datatype Options = Options(
    encoding: string, ordering: string, rename: bool, maxSatOut: bool, cnfOutput: bool,
    occLimit: int, tempOrdered: bool, getCoverage: bool)

  /** What a run produces: the coverage curve, the written file, or nothing
      (no `-c` and no `-m`). */
  datatype Output = CoverageCurve(curve: seq<nat>) | File(lines: seq<seq<Token>>) | NoFile

  /** The header values, the rank map, the printed variable order, the map
      after renaming, and the output. */
  datatype Outcome = Outcome(maxVar: int, maxCls: int, ranks: seq<int>, order: seq<int>, varMap: seq<int>, output: Output)

  /** The variable names of the pairs `generate_cnf` writes. */
  function WrittenKlauses(lines: seq<seq<Token>>, rename: bool, varMap: seq<int>): Option<seq<Klause>>
  {
    if rename then RenameKnf(Klauses(lines), varMap) else Some(Klauses(lines))
  }

  /** `list(s)` of a set: its elements, each once, in some order. */
  ghost predicate Enumerates(soft: seq<int>, s: set<int>)
  {
    Distinct(soft) && |soft| == |s| && forall x :: x in soft <==> x in s
  }

  /** The plot names of `print_coverage`; `lst.index` refuses any other. */
  const CoverageNames := ["occurence", "proximity", "PAMO", "natural", "graph"]

  /** `print_coverage` gets through: the soft variables can be sorted by rank
      (the comparator runs only on two or more) and each one indexes `lit_seen`. */
  ghost predicate SoftFits(soft: set<int>, ranks: seq<int>, maxVar: int)
  {
    && (|soft| < 2 || forall v :: v in soft ==> Abs(v) < |ranks|)
    && (forall v :: v in soft ==> v <= maxVar)
  }

  lemma EnumeratedFits(soft: seq<int>, s: set<int>, ranks: seq<int>, maxVar: int)
    requires Enumerates(soft, s)
    ensures SortLiterals(soft, ranks).Some? && (forall i :: 0 <= i < |soft| ==> soft[i] <= maxVar) <==> SoftFits(s, ranks, maxVar)
  {
    assert Ranked(soft, ranks) <==> forall v :: v in s ==> Abs(v) < |ranks| by {
      if Ranked(soft, ranks) {
        forall v | v in s ensures Abs(v) < |ranks| {
          assert v in soft;
          var i :| 0 <= i < |soft| && soft[i] == v;
        }
      }
      if forall v :: v in s ==> Abs(v) < |ranks| {
        forall i | 0 <= i < |soft| ensures Abs(soft[i]) < |ranks| {
          assert soft[i] in s;
        }
      }
    }
    assert (forall i :: 0 <= i < |soft| ==> soft[i] <= maxVar) <==> forall v :: v in s ==> v <= maxVar by {
      if forall i :: 0 <= i < |soft| ==> soft[i] <= maxVar {
        forall v | v in s ensures v <= maxVar {
          assert v in soft;
          var i :| 0 <= i < |soft| && soft[i] == v;
        }
      }
      if forall v :: v in s ==> v <= maxVar {
        forall i | 0 <= i < |soft| ensures soft[i] <= maxVar {
          assert soft[i] in s;
        }
      }
    }
  }

  /** The curve `print_coverage` computes from one enumeration of the soft variables. */
  ghost predicate Covers(curve: seq<nat>, lines: seq<seq<Token>>, soft: seq<int>, ranks: seq<int>)
  {
    && SortLiterals(soft, ranks).Some?
    && var sh := SortLiterals(soft, ranks).value;
       && |sh| == |soft| && |curve| == |soft| + 1
       && forall i :: 0 <= i <= |soft| ==> curve[i] == |Covered(Projected(lines, SoftVars(lines)), sh[..i])|
  }

  /** The curve of some enumeration of the soft set (Python's set order is not modelled). */
  ghost predicate CurveFor(curve: seq<nat>, lines: seq<seq<Token>>, ranks: seq<int>)
  {
    exists soft :: Enumerates(soft, SoftVars(lines)) && Covers(curve, lines, soft, ranks)
  }

  /** The coverage branch gets through. */
  ghost predicate CoverageSucceeds(lines: seq<seq<Token>>, name: string, ranks: seq<int>, maxVar: int)
  {
    HardWellFormed(lines) && name in CoverageNames && SoftFits(SoftVars(lines), ranks, maxVar)
  }

  /** Why the coverage branch fails: a line `parse_knf_remove_soft` refuses
      (the first), a name with no plot index, or unsortable or too large soft
      variables. */
  ghost predicate CoverageFails(lines: seq<seq<Token>>, name: string, ranks: seq<int>, maxVar: int, e: PipelineError)
  {
    if !HardWellFormed(lines) then
      e.KnfLine? && e.p.line < |lines| && HardBad(lines[e.p.line]) && HardWellFormed(lines[..e.p.line])
    else if name !in CoverageNames then e == NoCoverageIndex
    else e.CoverageFailed? && !SoftFits(SoftVars(lines), ranks, maxVar)
  }

  /** The rename block and `rename_knf` get through: the rank map covers
      0..max_var, every soft variable is at most `max_var`, and every literal
      has an entry. */
  ghost predicate RenameOk(lines: seq<seq<Token>>, ranks: seq<int>, maxVar: int)
  {
    && |ranks| > maxVar
    && (forall v :: v in SoftVars(lines) ==> v <= maxVar)
    && forall i :: 0 <= i < |Klauses(lines)| ==> Ranked(Klauses(lines)[i].lits, ranks)
  }

  /** A renaming that gets through starts with a successful rename block. */
  lemma RenameOkSoft(lines: seq<seq<Token>>, soft: seq<int>, ranks: seq<int>, maxVar: int)
    requires Enumerates(soft, SoftVars(lines)) && forall i :: 0 <= i < |soft| ==> soft[i] >= 0
    ensures RenameOk(lines, ranks, maxVar) ==>
      (|soft| < 2 || Ranked(soft, ranks)) && (forall i :: 0 <= i < |soft| ==> soft[i] <= maxVar) && |ranks| >= maxVar + 1
  {
    if RenameOk(lines, ranks, maxVar) {
      forall i | 0 <= i < |soft| ensures soft[i] <= maxVar && Abs(soft[i]) < |ranks| {
        assert soft[i] in SoftVars(lines);
      }
    }
  }

  /** The map the output is written with: the rank map, or the renamed one. */
  ghost predicate MapFor(m: seq<int>, lines: seq<seq<Token>>, rename: bool, ranks: seq<int>, maxVar: int)
  {
    if rename then exists soft :: Enumerates(soft, SoftVars(lines)) && SoftRemap(m, soft, ranks, maxVar)
    else m == ranks
  }

  /** `write_cnf` with map `m` gets through. */
  predicate CnfWrites(lines: seq<seq<Token>>, o: Options, m: seq<int>, maxVar: int, enc: Encoder)
  {
    WrittenKlauses(lines, o.rename, m).Some? &&
    CnfFile(WrittenKlauses(lines, o.rename, m).value, m, maxVar, o.encoding, o.rename, enc).Ok?
  }

  /** The write branch gets through. */
  ghost predicate WriteSucceeds(lines: seq<seq<Token>>, o: Options, ranks: seq<int>, maxVar: int, enc: Encoder)
  {
    && (o.rename ==> RenameOk(lines, ranks, maxVar))
    && (o.maxSatOut ==> o.cnfOutput)
    && (!o.maxSatOut && o.cnfOutput ==> forall m :: MapFor(m, lines, o.rename, ranks, maxVar) ==> CnfWrites(lines, o, m, maxVar, enc))
  }

  /** Why the write branch fails: the renaming, `-m` without `-c`, or `write_cnf`. */
  ghost predicate WriteFails(lines: seq<seq<Token>>, o: Options, ranks: seq<int>, maxVar: int, enc: Encoder, e: PipelineError)
  {
    if o.rename && !RenameOk(lines, ranks, maxVar) then e == RenameFailed
    else if o.maxSatOut then !o.cnfOutput && e == NoOutputPath
    else
      && o.cnfOutput && e.WriteFailed?
      && exists m :: MapFor(m, lines, o.rename, ranks, maxVar) && WrittenKlauses(lines, o.rename, m).Some? &&
           CnfFile(WrittenKlauses(lines, o.rename, m).value, m, maxVar, o.encoding, o.rename, enc) == Err(e.w)
  }

  /** Lines 419-455 get through. */
  ghost predicate ProduceSucceeds(lines: seq<seq<Token>>, o: Options, ranks: seq<int>, maxVar: int, enc: Encoder)
  {
    WellFormed(lines) &&
    if o.getCoverage then CoverageSucceeds(lines, o.ordering, ranks, maxVar) else WriteSucceeds(lines, o, ranks, maxVar, enc)
  }

  /** Why lines 419-455 fail: the first line `parse_knf` refuses, then the branch taken. */
  ghost predicate ProduceFails(lines: seq<seq<Token>>, o: Options, ranks: seq<int>, maxVar: int, enc: Encoder, e: PipelineError)
  {
    if !WellFormed(lines) then
      e.KnfLine? && e.p.line < |lines| && ClassifyLine(lines[e.p.line]).Malformed? && WellFormed(lines[..e.p.line])
    else if o.getCoverage then CoverageFails(lines, o.ordering, ranks, maxVar, e)
    else WriteFails(lines, o, ranks, maxVar, enc, e)
  }

  /** The rank map strategy `s` yields. */
  ghost predicate RanksFor(s: Strategy, maxVar: int, orderFile: seq<seq<Token>>, shuffle: seq<int> -> seq<int>, ranks: seq<int>)
  {
    match s
    case Natural => ranks == Identity(maxVar + 1)
    case RandomFixed => ranks == [0] + shuffle(Range1(maxVar))
    case _ =>
      var ts := Flatten(orderFile);
      && Acceptable(ts, |Identity(maxVar + 1)|)
      && |ranks| == |Identity(maxVar + 1)|
      && (forall j :: 0 <= j < |ts| ==> ranks[Abs(ts[j].value)] == j + 1)
      && (forall v :: 0 <= v < |ranks| && v !in VarsOf(ts) ==> ranks[v] == v)
  }

  /** Line h is the first `p` line, with no empty line before it. */
  ghost predicate HeaderAt(lines: seq<seq<Token>>, h: int)
  {
    0 <= h < |lines| && IsHeader(lines[h]) && forall j :: 0 <= j < h ==> lines[j] != [] && !IsHeader(lines[j])
  }

  /** The first `p` line is unique. */
  lemma HeaderAtOnly(lines: seq<seq<Token>>, h: int)
    requires HeaderAt(lines, h)
    ensures forall k :: HeaderAt(lines, k) ==> k == h
  {
  }

  /** Why the header scan fails: an empty line first, or no `p` line at all. */
  ghost predicate HeaderFails(lines: seq<seq<Token>>, e: HeaderError)
  {
    || (e == NoHeader && forall j :: 0 <= j < |lines| ==> lines[j] != [] && !IsHeader(lines[j]))
    || (e.EmptyLineBeforeHeader? && e.line < |lines| && lines[e.line] == [] &&
        forall j :: 0 <= j < e.line ==> lines[j] != [] && !IsHeader(lines[j]))
  }

  /** A failed header scan leaves no first `p` line. */
  lemma HeaderFailsNone(lines: seq<seq<Token>>, e: HeaderError)
    requires HeaderFails(lines, e)
    ensures forall k :: !HeaderAt(lines, k)
  {
  }

  /** From the header values on, `generate_cnf` gets through. */
  ghost predicate StrategySucceeds(lines: seq<seq<Token>>, o: Options, orderFile: seq<seq<Token>>,
                                   shuffle: seq<int> -> seq<int>, enc: Encoder, maxVar: int, maxCls: int)
  {
    var s := ResolveStrategy(o.tempOrdered, o.ordering, o.occLimit, maxCls);
    && s.Some?
    && (s.value.FromFile? || s.value.RunScript? ==> Acceptable(Flatten(orderFile), |Identity(maxVar + 1)|))
    && forall ranks :: RanksFor(s.value, maxVar, orderFile, shuffle, ranks) ==>
         SortLiterals(Range1(maxVar), ranks).Some? && ProduceSucceeds(lines, o, ranks, maxVar, enc)
  }

  /** Why `generate_cnf` fails after the header values: an unknown name, a
      refused ordering file, an unranked variable in the printed order, or
      lines 419-455. */
  ghost predicate StrategyFails(lines: seq<seq<Token>>, o: Options, orderFile: seq<seq<Token>>,
                                shuffle: seq<int> -> seq<int>, enc: Encoder, maxVar: int, maxCls: int, e: PipelineError)
  {
    var s := ResolveStrategy(o.tempOrdered, o.ordering, o.occLimit, maxCls);
    if s.None? then e == UnknownOrderingName
    else if (s.value.FromFile? || s.value.RunScript?) && !Acceptable(Flatten(orderFile), |Identity(maxVar + 1)|) then
      e.OrderingFile?
    else
      exists ranks :: RanksFor(s.value, maxVar, orderFile, shuffle, ranks) && RankedFails(lines, o, ranks, maxVar, enc, e)
  }

  /** Why `generate_cnf` fails once the rank map is built. */
  ghost predicate RankedFails(lines: seq<seq<Token>>, o: Options, ranks: seq<int>, maxVar: int, enc: Encoder, e: PipelineError)
  {
    if SortLiterals(Range1(maxVar), ranks).None? then e == OrderUnranked
    else ProduceFails(lines, o, ranks, maxVar, enc, e)
  }

  /** With a shuffle that permutes, as `random.shuffle` does, the random fixed
      map ranks every variable 1..max_var, so the printed order is reached and
      `OrderUnranked` never arises. */
  lemma RandomFixedRanked(lines: seq<seq<Token>>, o: Options, orderFile: seq<seq<Token>>,
                          shuffle: seq<int> -> seq<int>, enc: Encoder, maxVar: int, maxCls: int)
    requires multiset(shuffle(Range1(maxVar))) == multiset(Range1(maxVar))
    ensures SortLiterals(Range1(maxVar), [0] + shuffle(Range1(maxVar))).Some?
    ensures ResolveStrategy(o.tempOrdered, o.ordering, o.occLimit, maxCls) == Some(RandomFixed) ==>
      !StrategyFails(lines, o, orderFile, shuffle, enc, maxVar, maxCls, OrderUnranked)
  {
  }

  /** `generate_cnf` gets through every step. */
  ghost predicate GenerateSucceeds(lines: seq<seq<Token>>, o: Options, orderFile: seq<seq<Token>>,
                                   shuffle: seq<int> -> seq<int>, enc: Encoder)
  {
    && (exists h :: HeaderAt(lines, h))
    && forall h :: HeaderAt(lines, h) ==>
         && HeaderCounts(lines[h]).Some?
         && StrategySucceeds(lines, o, orderFile, shuffle, enc, HeaderCounts(lines[h]).value.0, HeaderCounts(lines[h]).value.1)
  }

  /** Why `generate_cnf` fails: the header scan, the header's fields, or a later step. */
  ghost predicate GenerateFails(lines: seq<seq<Token>>, o: Options, orderFile: seq<seq<Token>>,
                                shuffle: seq<int> -> seq<int>, enc: Encoder, e: PipelineError)
  {
    if e.HeaderMissing? then HeaderFails(lines, e.e) && (e.e == NoHeader ==> !RefusedWithoutHeader(o))
    else if HeaderFails(lines, NoHeader) then e == UnknownOrderingName && RefusedWithoutHeader(o)
    else exists h :: HeaderAt(lines, h) && HeaderLineFails(lines, h, o, orderFile, shuffle, enc, e)
  }

  /** Why `generate_cnf` fails once line h is found to be the header. */
  ghost predicate HeaderLineFails(lines: seq<seq<Token>>, h: int, o: Options, orderFile: seq<seq<Token>>,
                                  shuffle: seq<int> -> seq<int>, enc: Encoder, e: PipelineError)
    requires 0 <= h < |lines|
  {
    match HeaderCounts(lines[h])
    case None => e == HeaderMalformed
    case Some((maxVar, maxCls)) => StrategyFails(lines, o, orderFile, shuffle, enc, maxVar, maxCls, e)
  }

  /** The coverage output: one entry per soft variable plus one, from 0 to the
      number of kept clauses, each entry the count `print_coverage` computes. */
  ghost predicate Curve(output: Output, lines: seq<seq<Token>>, ranks: seq<int>)
  {
    && output.CoverageCurve?
    && |output.curve| == |SoftVars(lines)| + 1
    && output.curve[0] == 0
    && output.curve[|SoftVars(lines)|] == |Projected(lines, SoftVars(lines))|
    && CurveFor(output.curve, lines, ranks)
  }

  /** The written output: when renaming, the map permutes the soft variables and
      fixes the other indices up to `max_var`; otherwise it is the rank map. The
      file is the WCNF file (with `-c`), the CNF file, or nothing. */
  ghost predicate Written(varMap: seq<int>, output: Output, lines: seq<seq<Token>>, o: Options,
                          ranks: seq<int>, maxVar: int, enc: Encoder)
  {
    && (o.rename ==>
          && |varMap| > maxVar
          && (forall v :: v in SoftVars(lines) ==> 0 <= v < |varMap| && varMap[v] in SoftVars(lines))
          && (forall i :: 0 <= i <= maxVar && i !in SoftVars(lines) ==> varMap[i] == i))
    && (!o.rename ==> varMap == ranks)
    && MapFor(varMap, lines, o.rename, ranks, maxVar)
    && WrittenKlauses(lines, o.rename, varMap).Some?
    && var ks := WrittenKlauses(lines, o.rename, varMap).value;
       && (o.maxSatOut && o.cnfOutput ==> output == File(WcnfFile(ks)))
       && (!o.maxSatOut && o.cnfOutput ==>
             output.File? && CnfFile(ks, varMap, maxVar, o.encoding, o.rename, enc) == Ok(output.lines))
       && (!o.maxSatOut && !o.cnfOutput ==> output == NoFile)
  }

  /** A successful `generate_cnf` from the header values on: the strategy
      resolves, the ranks are the ones it yields, the printed order is
      1..max_var sorted by rank, and the output is the coverage curve or the
      written file. */
  ghost predicate Completes(out: Outcome, lines: seq<seq<Token>>, o: Options, orderFile: seq<seq<Token>>,
                            shuffle: seq<int> -> seq<int>, enc: Encoder)
  {
    var s := ResolveStrategy(o.tempOrdered, o.ordering, o.occLimit, out.maxCls);
    && s.Some?
    && RanksFor(s.value, out.maxVar, orderFile, shuffle, out.ranks)
    && SortLiterals(Range1(out.maxVar), out.ranks) == Some(out.order)
    && WellFormed(lines)
    && (o.getCoverage ==> Curve(out.output, lines, out.ranks))
    && (!o.getCoverage ==> Written(out.varMap, out.output, lines, o, out.ranks, out.maxVar, enc))
  }

  /** `generate_cnf`. */
  method GenerateCnf(lines: seq<seq<Token>>, o: Options, orderFile: seq<seq<Token>>, shuffle: seq<int> -> seq<int>, enc: Encoder)
    returns (r: Result<Outcome, PipelineError>)
    ensures (forall j :: 0 <= j < |lines| ==> lines[j] != [] && !IsHeader(lines[j])) ==>
      r == if RefusedWithoutHeader(o) then Err(UnknownOrderingName) else Err(HeaderMissing(NoHeader))
    ensures r.Ok? ==>
      && (exists h :: HeaderGives(lines, h, r.value.maxVar, r.value.maxCls))
      && Completes(r.value, lines, o, orderFile, shuffle, enc)
    ensures !o.getCoverage && o.maxSatOut && !o.cnfOutput ==> r.Err?
    ensures r.Err? && r.error == NoOutputPath ==> !o.getCoverage && o.maxSatOut && !o.cnfOutput
    ensures r.Err? ==> GenerateFails(lines, o, orderFile, shuffle, enc, r.error)
    ensures GenerateSucceeds(lines, o, orderFile, shuffle, enc) ==> r.Ok?
  {
    var h := FindHeader(lines);
    if h.Err? {
      assert HeaderFails(lines, h.error);
      HeaderFailsNone(lines, h.error);
      if h.error == NoHeader && RefusedWithoutHeader(o) {
        return Err(UnknownOrderingName);
      }
      return Err(HeaderMissing(h.error));
    }
    ghost var hv := h.value;
    assert HeaderAt(lines, hv);
    HeaderAtOnly(lines, hv);
    var counts := HeaderCounts(lines[h.value]);
    if counts.None? {
      assert HeaderLineFails(lines, hv, o, orderFile, shuffle, enc, HeaderMalformed);
      return Err(HeaderMalformed);
    }
    var (maxVar, maxCls) := counts.value;
    assert HeaderGives(lines, hv, maxVar, maxCls);
    r := FromHeader(lines, o, orderFile, shuffle, enc, maxVar, maxCls);
  }

  /** Lines 343-455 of `generate_cnf`, once the header gives `max_var` and
      `max_cls`: the strategy, the rank map, the printed order, then lines 419-455. */
  method FromHeader(lines: seq<seq<Token>>, o: Options, orderFile: seq<seq<Token>>, shuffle: seq<int> -> seq<int>,
                    enc: Encoder, maxVar: int, maxCls: int)
    returns (r: Result<Outcome, PipelineError>)
    ensures r.Ok? ==>
      && r.value.maxVar == maxVar && r.value.maxCls == maxCls
      && Completes(r.value, lines, o, orderFile, shuffle, enc)
    ensures !o.getCoverage && o.maxSatOut && !o.cnfOutput ==> r.Err?
    ensures r.Err? && r.error == NoOutputPath ==> !o.getCoverage && o.maxSatOut && !o.cnfOutput
    ensures r.Err? ==> StrategyFails(lines, o, orderFile, shuffle, enc, maxVar, maxCls, r.error)
    ensures StrategySucceeds(lines, o, orderFile, shuffle, enc, maxVar, maxCls) ==> r.Ok?
  {
    var strategy := ResolveStrategy(o.tempOrdered, o.ordering, o.occLimit, maxCls);
    if strategy.None? {
      return Err(UnknownOrderingName);
    }
    var ranks := BuildVarMap(strategy.value, maxVar, orderFile, shuffle);
    if ranks.Err? {
      return Err(ranks.error);
    }
    var order := SortLiterals(Range1(maxVar), ranks.value);
    if order.None? {
      return Err(OrderUnranked);
    }
    var produced := Produce(lines, o, ranks.value, maxVar, enc);
    if produced.Err? {
      return Err(produced.error);
    }
    return Ok(Outcome(maxVar, maxCls, ranks.value, order.value, produced.value.0, produced.value.1));
  }

  /** Lines 419-455 of `generate_cnf`: `parse_knf`, then the coverage curve or
      the renaming and the written file; the result is the final map and the output. */
  method Produce(lines: seq<seq<Token>>, o: Options, ranks: seq<int>, maxVar: int, enc: Encoder)
    returns (r: Result<(seq<int>, Output), PipelineError>)
    ensures r.Ok? ==> WellFormed(lines)
    ensures r.Ok? && o.getCoverage ==> Curve(r.value.1, lines, ranks)
    ensures r.Ok? && !o.getCoverage ==> Written(r.value.0, r.value.1, lines, o, ranks, maxVar, enc)
    ensures !o.getCoverage && o.maxSatOut && !o.cnfOutput ==> r.Err?
    ensures r.Err? && r.error == NoOutputPath ==> !o.getCoverage && o.maxSatOut && !o.cnfOutput
    ensures r.Err? ==> ProduceFails(lines, o, ranks, maxVar, enc, r.error)
    ensures ProduceSucceeds(lines, o, ranks, maxVar, enc) ==> r.Ok?
  {
    var parsed := ParseKnf(lines);
    if parsed.Err? {
      return Err(KnfLine(parsed.error));
    }
    var (klauses, softSet) := parsed.value;
    var soft := Enumerate(softSet);
    var output;
    var varMap := ranks;
    if o.getCoverage {
      output := CoverageBranch(lines, o.ordering, softSet, soft, ranks, maxVar);
      if output.Err? {
        return Err(output.error);
      }
    } else {
      var written;
      written, varMap := WriteBranch(lines, klauses, o, softSet, soft, ranks, maxVar, enc);
      if written.Err? {
        return Err(written.error);
      }
      output := Ok(written.value);
    }
    return Ok((varMap, output.value));
  }

  /** The coverage branch: `parse_knf_remove_soft`, the plot index of the
      strategy name, and `print_coverage`. */
  method CoverageBranch(lines: seq<seq<Token>>, name: string, softSet: set<int>, soft: seq<int>, ranks: seq<int>, maxVar: int)
    returns (r: Result<Output, PipelineError>)
    requires softSet == SoftVars(lines) && Enumerates(soft, softSet)
    ensures r.Ok? ==>
      && r.value.CoverageCurve?
      && |r.value.curve| == |soft| + 1
      && r.value.curve[0] == 0
      && r.value.curve[|soft|] == |Projected(lines, softSet)|
    ensures r.Err? ==> r.error.KnfLine? || r.error == NoCoverageIndex || r.error.CoverageFailed?
    ensures r.Ok? <==> CoverageSucceeds(lines, name, ranks, maxVar)
    ensures r.Err? ==> CoverageFails(lines, name, ranks, maxVar, r.error)
    ensures r.Ok? ==> Covers(r.value.curve, lines, soft, ranks)
  {
    var removed := ParseKnfRemoveSoft(lines, softSet);
    if removed.Err? {
      return Err(KnfLine(removed.error));
    }
    var (clauses, occs) := removed.value;
    if name !in CoverageNames {
      return Err(NoCoverageIndex);
    }
    SoftVarsNonnegative(lines);
    assert forall i :: 0 <= i < |soft| ==> soft[i] >= 0 by {
      forall i | 0 <= i < |soft| ensures soft[i] >= 0 {
        assert soft[i] in soft;
      }
    }
    var curve := Coverage(ranks, soft, clauses, occs, maxVar);
    EnumeratedFits(soft, softSet, ranks, maxVar);
    if curve.Err? {
      return Err(CoverageFailed(curve.error));
    }
    ghost var shuff := SortLiterals(soft, ranks).value;
    CoverageStart(clauses);
    assert shuff[..0] == [];
    assert shuff[..|soft|] == shuff;
    forall j | 0 <= j < |clauses| ensures AllIn(clauses[j], shuff) {
      SortLiteralsMembers(soft, ranks);
      forall u | u in clauses[j] ensures u in shuff {
        var k :| 0 <= k < |soft| && soft[k] == u;
      }
    }
    CoverageEnd(clauses, shuff);
    return Ok(CoverageCurve(curve.value));
  }

  /** The rename block, `rename_knf`, and `write_wcnf` or `write_cnf`. */
  method WriteBranch(lines: seq<seq<Token>>, klauses: seq<Klause>, o: Options, softSet: set<int>, soft: seq<int>,
                     ranks: seq<int>, maxVar: int, enc: Encoder)
    returns (r: Result<Output, PipelineError>, varMap: seq<int>)
    requires klauses == Klauses(lines) && softSet == SoftVars(lines)
    requires Enumerates(soft, softSet)
    ensures r.Ok? ==>
      && (o.rename ==>
            && |varMap| > maxVar
            && (forall v :: v in softSet ==> 0 <= v < |varMap| && varMap[v] in softSet)
            && (forall i :: 0 <= i <= maxVar && i !in softSet ==> varMap[i] == i))
      && (!o.rename ==> varMap == ranks)
      && WrittenKlauses(lines, o.rename, varMap).Some?
      && var ks := WrittenKlauses(lines, o.rename, varMap).value;
         && (o.maxSatOut && o.cnfOutput ==> r.value == File(WcnfFile(ks)))
         && (!o.maxSatOut && o.cnfOutput ==> r.value.File? && CnfFile(ks, varMap, maxVar, o.encoding, o.rename, enc) == Ok(r.value.lines))
         && (!o.maxSatOut && !o.cnfOutput ==> r.value == NoFile)
    ensures o.maxSatOut && !o.cnfOutput ==> r.Err? && (r.error == RenameFailed || r.error == NoOutputPath)
    ensures !o.rename && o.maxSatOut && !o.cnfOutput ==> r == Err(NoOutputPath)
    ensures r.Err? && r.error == NoOutputPath ==> o.maxSatOut && !o.cnfOutput && WrittenKlauses(lines, o.rename, varMap).Some?
    ensures r.Err? && r.error.WriteFailed? ==>
      WrittenKlauses(lines, o.rename, varMap).Some? &&
      CnfFile(WrittenKlauses(lines, o.rename, varMap).value, varMap, maxVar, o.encoding, o.rename, enc) == Err(r.error.w)
    ensures o.rename && !RenameOk(lines, ranks, maxVar) ==> r == Err(RenameFailed)
    ensures (o.rename ==> RenameOk(lines, ranks, maxVar)) && o.maxSatOut && !o.cnfOutput ==> r == Err(NoOutputPath)
    ensures r.Err? ==> WriteFails(lines, o, ranks, maxVar, enc, r.error)
    ensures WriteSucceeds(lines, o, ranks, maxVar, enc) ==> r.Ok?
    ensures r.Ok? || r.error != RenameFailed ==> MapFor(varMap, lines, o.rename, ranks, maxVar)
  {
    varMap := ranks;
    var ks := klauses;
    if o.rename {
      SoftVarsNonnegative(lines);
      assert forall i :: 0 <= i < |soft| ==> soft[i] >= 0 by {
        forall i | 0 <= i < |soft| ensures soft[i] >= 0 {
          assert soft[i] in soft;
        }
      }
      var renamed := RenameSoft(soft, ranks, maxVar);
      RenameOkSoft(lines, soft, ranks, maxVar);
      if renamed.None? {
        return Err(RenameFailed), varMap;
      }
      varMap := renamed.value;
      var rk := RenameKnf(klauses, varMap);
      if rk.None? {
        return Err(RenameFailed), varMap;
      }
      ks := rk.value;
    }
    if o.maxSatOut {
      if !o.cnfOutput {
        return Err(NoOutputPath), varMap;
      }
      var w := WriteWcnf(ks);
      return Ok(File(w)), varMap;
    } else if o.cnfOutput {
      var c := WriteCnf(ks, varMap, maxVar, o.encoding, o.rename, enc);
      if c.Err? {
        return Err(WriteFailed(c.error)), varMap;
      }
      return Ok(File(c.value)), varMap;
    }
    return Ok(NoFile), varMap;
  }
}
