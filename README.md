# LiteralSorting in Dafny

LiteralSorting orders the literals inside the cardinality constraints of a
KNF formula before they are compiled to CNF. A KNF file holds clauses and
lines `k <bound> <lits> 0`. An ordering strategy gives every variable a
rank. Each constraint's literals are then sorted by rank, optionally
renamed, and encoded as clauses (or kept as `k` lines). The result is
written as CNF, as KNF, or as a weighted MaxSAT (WCNF) file. The project
models five programs of the repository:

- `tools/order_and_encode.py`, the driver:
  - option rewriting and strategy dispatch;
  - `parse_knf` and `parse_knf_remove_soft`;
  - `parse_ordering` and `sort_literals`;
  - the rename block and `rename_knf`;
  - `write_cnf`, `write_wcnf` and the coverage curve of `print_coverage`.

  These are modules `LiteralOrder`, `KnfParse`, `CnfWriter` and `Pipeline`.
- `tools/occur_ordering.py`: variables ordered by weighted occurrence count
  (module `OccurOrdering`).
- `tools/VIG_ordering.py`, the community ordering (modules `VigCommunities`
  and `VigOrdering`). It parses the formula and builds the variable
  incidence graph. It keeps the Louvain partitions with the most groups and
  selects one of them by group-size deviation. Finally it emits each
  constraint's literals group by group.
- `maxSAT_to_KNF/maxSAT2KNF.hpp`: the parser observer that collects a
  (weighted) formula, and the writers `writeKnf`, `MaxSAT2KNF` and
  `fix_MaxSAT` (module `MaxSatToKnf`, class `KnfCheck`).
- `tools/proximity/main.hpp`: the observer of the proximity tool and the
  proximity loop (module `Proximity`, class `KnfCheck`). The loop keeps a
  work list of seen variables and picks the next variable from it, or by
  occurrence count when it is empty. No nonzero variable is emitted twice.
  The placeholder 0 is emitted, possibly repeatedly, when the work list is
  empty and no k-variable is left to pick. The loop stops once every
  variable of the first cardinality constraint is out, or after `max_var`
  emissions, even if some of those variables are still missing.

Shared modules:

- `Common`: tokens, literal counting, the header search and the line
  classifier.
- `Numerals`: Python's `int()`/`str()` and C++'s `std::stoi`.
- `Sorting`: a stable sort by key, with its permutation, order, stability
  and idempotence proved, and Python's lexicographic list order.
- `Wrappers`: `Option` and `Result`.

How the model represents the programs:

- **Input.** Files are sequences of lines. Each line is already split into
  tokens: `Num(v)` for a token that `int()` accepts, and `Word(s)` for any
  other token.
- **Run-time errors.** An exception or `exit()` in the Python code becomes
  an error variant of a `Result`, or `None` of an `Option`. This covers
  IndexError, ValueError, KeyError, TypeError and "appears twice". One of
  them is `-m` without `-c`: `write_wcnf` then opens `None` and raises
  TypeError (`Pipeline.NoOutputPath`).
- **Tokens.** `Num(v)` holds every token that `int()` accepts, so a
  `Word(s)` read from a file never holds a numeral. The C++ writer
  (`MaxSatToKnf.WeightedLine`) is the one exception: it copies the
  weight text it is given verbatim, as a `Word`. `Numerals.PyInt` accepts an optional
  sign and ASCII digits, optionally surrounded by blanks; Python's underscores and
  non-ASCII digits are not accepted.
- **Undefined behaviour.** An out-of-range vector index in the C++ code
  becomes a precondition.
- **External parts.** Some parts are not in the repository, or use the clock
  or randomness. Each becomes a function parameter:
  - Louvain community detection;
  - the timeout test;
  - `random.shuffle`;
  - PySAT's `CardEnc.atleast`;
  - the ordering file an external script writes;
  - the floating-point proximity scores.

Behaviour of the code worth noting:

- **Rename direction.** The rename block
  (`tools/order_and_encode.py:441-442`) sets
  `var_map[i] = soft_units[sorted_units.index(i)]`: the variable at rank
  position p is sent to the p-th smallest constrained id. The other
  direction, `sorted_units[soft_units.index(i)]`, is left commented out on
  the same line.
- **Community selection.** In `tools/VIG_ordering.py:248-255`
  `min_deviation` is set to 99999999999 once and never updated inside the
  loop. So the *last* candidate whose deviation is below that value wins,
  not the one with the smallest deviation (`VigOrdering.SelectionKeepsLast`
  shows a case).
- **Occurrence fallback.** In `tools/order_and_encode.py:374-389` the
  names `graph` and `graphOcc` are tested before the occurrence fallback
  `occLimit > 0 and max_cls >= occLimit`, so the fallback never applies to
  them. It does replace `proximity`, `PAMO` and unknown names
  (`Pipeline.OccurrenceFallback`).
- **`graphOcc`.** `VIG_ordering.py -s` prints `Sorting` before the order
  (`tools/VIG_ordering.py:259`). `graphOcc` redirects that output into the
  ordering file (`tools/order_and_encode.py:383`), and `parse_ordering`
  then rejects the word (`VigOrdering.SortingRefused`).
- **Proximity entry 0.** In `main.hpp`, the occurrence entry of AMO
  constraint 0 is `-0 == 0`, which reads back as clause 0. The model keeps
  this.

## Model

| member | source | states |
|---|---|---|
| Common.FindHeader | tools/order_and_encode.py:333-340 | the index of the first `p` line, with no empty line before it; `NoHeader` exactly when no line is a header; an empty line before the header is an error at that line |
| Common.MaxAbs | tools/order_and_encode.py:258 | the largest absolute value of the literals of the clauses: a bound on every literal, attained by one when no clause is empty |
| Common.MaxAbsLits | tools/order_and_encode.py:258 | the largest absolute value of a clause's literals: a bound that some literal attains |
| Common.Values | tools/order_and_encode.py:119 | `[int(t) for t in ts]` has one integer per token |
| Common.Nums | tools/order_and_encode.py:48 | the tokens written for a list of integers read back as those integers |
| Common.Identity | tools/order_and_encode.py:352-353 | `range(n)` as a list: entry i is i, empty for n <= 0 |
| Common.Range1 | tools/order_and_encode.py:414 | `range(1, n + 1)`: entry i is i + 1 |
| Common.Repeat | tools/order_and_encode.py:155-157 | n copies of one value: a clause index appended once per occurrence of the variable |
| Common.CountVarSplit | tools/occur_ordering.py:88-93 | the occurrences of a variable are those of its positive and its negative literal |
| Common.DistinctPermutation | tools/order_and_encode.py:434-436 | a permutation of a list without repetitions has none either |
| Numerals.NatToString | tools/order_and_encode.py:48 | `str(n)` of a natural number is a non-empty digit string |
| Numerals.NatToStringValue | tools/order_and_encode.py:48 | the digits of `str(n)` denote n |
| Numerals.PyIntOfIntToString | tools/order_and_encode.py:119 | `int(str(n)) == n`: a written number reads back unchanged |
| Numerals.Stoi | maxSAT_to_KNF/maxSAT2KNF.hpp:48 | `std::stoi` succeeds only with a value inside the 32-bit range |
| Numerals.StoiOfIntToString | maxSAT_to_KNF/maxSAT2KNF.hpp:48 | `stoi` reads back the decimal rendering of every 32-bit value |
| Numerals.SkipSpace | maxSAT_to_KNF/maxSAT2KNF.hpp:48 | the leading blanks `stoi` skips: the result is the first non-blank position |
| Numerals.DigitRunEnd | maxSAT_to_KNF/maxSAT2KNF.hpp:48 | the end of the maximal digit run that `stoi` converts |
| Numerals.DropPrefix | tools/order_and_encode.py:510 | Python's `s[13:]`, empty when the string is shorter |
| Sorting.StableSort | tools/order_and_encode.py:63 | `sorted(s, key=...)` keeps the length |
| Sorting.StableSortPermutation | tools/order_and_encode.py:63 | the sorted list is a permutation of the input |
| Sorting.StableSortSorted | tools/order_and_encode.py:63 | the sorted list is ordered by key |
| Sorting.StableSortStable | tools/order_and_encode.py:63 | elements with equal keys keep their input order |
| Sorting.StableSortOfSorted | tools/order_and_encode.py:63 | a list already ordered by key is returned unchanged |
| Sorting.StableSortIdempotent | tools/order_and_encode.py:63 | sorting twice gives the result of sorting once |
| Sorting.StableSortOfIncreasing | tools/occur_ordering.py:97-100 | distinct ids in increasing order, stably sorted by key, are ordered by key with ties in increasing id |
| Sorting.StableSortInPlace | tools/occur_ordering.py:100 | `list.sort(key=...)` on an array, in place: the new contents are the stable sort of the old |
| Sorting.InsertAt | tools/occur_ordering.py:100 | one insertion step: the prefix becomes the old prefix with the element inserted, the rest is unchanged |
| Sorting.SortAll | tools/VIG_ordering.py:232 | `map(sorted, ...)`: every group sorted, the group count kept |
| Sorting.LexTotal | tools/VIG_ordering.py:232 | Python's comparison of integer lists is total |
| Sorting.LexTrans | tools/VIG_ordering.py:232 | and transitive |
| Sorting.LexAntisym | tools/VIG_ordering.py:232 | and antisymmetric |
| Sorting.LexSort | tools/VIG_ordering.py:232 | `sorted(groups)` keeps the number of groups |
| Sorting.LexSortPermutation | tools/VIG_ordering.py:232 | `sorted(groups)` is a permutation of the groups |
| Sorting.LexSortSorted | tools/VIG_ordering.py:232 | `sorted(groups)` is in lexicographic order |
| LiteralOrder.Trim | tools/order_and_encode.py:37-40 | the result is a prefix of the input that ends in neither `\r` nor `\n`, and only such characters were dropped |
| LiteralOrder.SortLiteralsSorted | tools/order_and_encode.py:56-64 | with every literal ranked the result is a permutation of the input in non-decreasing rank |
| LiteralOrder.SortLiteralsMembers | tools/order_and_encode.py:56-64 | a successful sort keeps exactly the literals it was given, and their number |
| LiteralOrder.SortLiteralsStable | tools/order_and_encode.py:57-61 | literals of equal rank keep their order, since only a strictly smaller rank answers -1 |
| LiteralOrder.SortLiteralsIdempotent | tools/order_and_encode.py:56-64 | sorting the sorted literals again changes nothing |
| LiteralOrder.SortLiteralsExample | tools/order_and_encode.py:53-55 | the example in the comment of `sort_literals`: [1, 2, 3] under 1->3, 2->2, 3->1 gives [3, 2, 1] |
| LiteralOrder.AcceptToken | tools/order_and_encode.py:77-87 | a fresh integer token with a map entry keeps an ordering file acceptable and adds its variable |
| LiteralOrder.ParseOrdering | tools/order_and_encode.py:67-89 | succeeds exactly on acceptable files; the j-th token's variable gets rank j, unmentioned variables keep their entry; otherwise the error names the first refused token and why |
| LiteralOrder.SignInt | tools/order_and_encode.py:205-207 | `sign_int` is 1 or -1 |
| LiteralOrder.SignIntAbs | tools/order_and_encode.py:205-207 | for a nonzero literal, sign times variable gives the literal back |
| LiteralOrder.RenameLits | tools/order_and_encode.py:213 | the renamed literal list has the input's length |
| LiteralOrder.RenameKnf | tools/order_and_encode.py:209-216 | fails exactly when a literal has no map entry; otherwise every constraint keeps its bound and gets its renamed literals |
| LiteralOrder.SoftRenamingVars | tools/order_and_encode.py:440-444 | under a rename-block map every index up to `max_var` is in range, 0 stays 0, positive ids stay positive, and distinct ids get distinct images |
| LiteralOrder.RenameKeepsSigns | tools/order_and_encode.py:209-216 | under a rename-block map every literal up to `max_var` is renamed and keeps its sign, and 0 stays 0 |
| LiteralOrder.RenameInjective | tools/order_and_encode.py:209-216 | under a rename-block map two literal lists up to `max_var` are renamed to the same list exactly when they are equal |
| LiteralOrder.SortDistinctIncreasing | tools/order_and_encode.py:434-435 | deduplicated ids sorted ascending are strictly increasing |
| LiteralOrder.IndexOf | tools/order_and_encode.py:443 | `s.index(x)`: the first position holding x |
| LiteralOrder.RankSoft | tools/order_and_encode.py:434-436 | fails exactly when two or more soft variables include an unranked one; otherwise A ascending and strictly increasing, B the rank order of A, both permutations of the soft variables |
| LiteralOrder.RenameSoft | tools/order_and_encode.py:430-445 | fails exactly on an unranked soft variable, a soft variable above `max_var` or a short map; otherwise rank position p of the soft variables is sent to the p-th smallest, other indices up to `max_var` to themselves, and the soft variables are permuted injectively among themselves |
| LiteralOrder.MarkSoft | tools/order_and_encode.py:437-439 | `is_soft` marks exactly the given variables, or raises on one past the end |
| LiteralOrder.Remap | tools/order_and_encode.py:441-445 | soft index B[p] gets A[p], every other index itself; fails exactly on a map shorter than the marker table |
| LiteralOrder.AscendingFacts | tools/order_and_encode.py:434-435 | the sorted soft list is a strictly increasing permutation of the soft variables |
| LiteralOrder.RankOrderFacts | tools/order_and_encode.py:436 | the rank-ordered soft list is a permutation of them, in non-decreasing rank |
| LiteralOrder.SoftPermuted | tools/order_and_encode.py:441-445 | sending B[p] to A[p] is a permutation of the soft variables |
| KnfParse.SoftVarsNonnegative | tools/order_and_encode.py:116 | the soft variables are absolute values |
| KnfParse.KlausesConcat | tools/order_and_encode.py:98-120 | each line contributes its own pairs after those of the lines before it |
| KnfParse.KlausesOfLine | tools/order_and_encode.py:102-120 | empty, `p` and `c` lines give nothing; a `k` line gives `(int(tokens[1]), tokens[2:-1])`; any other line gives `(1, tokens[:-1])` |
| KnfParse.ParseKnf | tools/order_and_encode.py:92-123 | succeeds exactly when no line fails to convert, then yields the pairs in file order and the constrained variables; otherwise the first bad line |
| KnfParse.Project | tools/order_and_encode.py:150 | the projection of a clause holds exactly the soft variables among its literals |
| KnfParse.OccIndexMembers | tools/order_and_encode.py:153-157 | an index is in `occs[v]` exactly when its clause holds v |
| KnfParse.OccIndexSorted | tools/order_and_encode.py:153-157 | `occs[v]` lists valid clause indices in ascending order |
| KnfParse.ParseKnfRemoveSoft | tools/order_and_encode.py:125-159 | succeeds exactly when every standard line converts; the kept clauses are the non-empty projections in file order, with a correct occurrence map; otherwise the first bad line |
| KnfParse.KeepLine | tools/order_and_encode.py:150-157 | a kept clause is appended and the occurrence map stays correct |
| KnfParse.RemoveSoftStep | tools/order_and_encode.py:133-157 | one more line adds its projection and its own well-formedness |
| KnfParse.ProjectedClauses | tools/order_and_encode.py:150-151 | every kept clause is a non-empty list of soft variables |
| KnfParse.AddOccurrences | tools/order_and_encode.py:153-157 | after the loop the occurrence map is correct for the clauses with the new one appended |
| KnfParse.PendingStep | tools/order_and_encode.py:153-157 | `occs` after one more literal of the new clause |
| KnfParse.ClauseSeen | tools/order_and_encode.py:184-187 | whether every variable of a clause is marked seen, or the index that raises |
| KnfParse.Coverage | tools/order_and_encode.py:162-195 | fails exactly when the soft variables cannot be sorted by rank or one exceeds `max_var`; otherwise entry i of the curve is the number of clauses covered by the first i ranked variables |
| KnfParse.CoverageCurve | tools/order_and_encode.py:176-195 | the curve has one entry more than there are variables, entry i counts the clauses all of whose variables are among the first i |
| KnfParse.CoverVar | tools/order_and_encode.py:177-193 | marking v sets exactly its flag, and the done set becomes the clauses covered by the variables so far |
| KnfParse.MarkCovered | tools/order_and_encode.py:181-193 | the clauses of `occs[v]` that are now covered join the done set and the counter follows its size |
| KnfParse.TryCover | tools/order_and_encode.py:182-193 | one clause is counted exactly when it is not yet done and all its variables are seen |
| KnfParse.CoveredStep | tools/order_and_encode.py:176-193 | a new variable covers, besides the old clauses, exactly the listed clauses now fully seen |
| KnfParse.CoverageStart | tools/order_and_encode.py:179 | the curve starts at 0 |
| KnfParse.CoverageMonotone | tools/order_and_encode.py:176-195 | the curve never decreases |
| KnfParse.CoverageEnd | tools/order_and_encode.py:194-195 | once every soft variable is taken, all kept clauses are covered |
| KnfParse.RangeSetCard | tools/order_and_encode.py:194 | the set of the first n clause indices has n elements |
| CnfWriter.ClauseLines | tools/order_and_encode.py:273-274 | one `write_clause` line per clause |
| CnfWriter.ClauseLineRead | tools/order_and_encode.py:47-48 | a written clause reads back in `parse_knf` as the same standard clause |
| CnfWriter.CardLineRead | tools/order_and_encode.py:238 | a kept `k` line reads back as the same cardinality constraint |
| CnfWriter.WriteCnf | tools/order_and_encode.py:221-276 | the written file is the loop's lines after a `p` header, with the final `max_var` and line count |
| CnfWriter.EncodeFromConcat | tools/order_and_encode.py:224-262 | the loop is a left fold: the pairs after a prefix continue from the lines and the `max_var` that the prefix left |
| CnfWriter.EncodeKnownOne | tools/order_and_encode.py:225-259 | with a known encoding, one constraint of bound above 1 either fails on an unranked literal or an empty encoding, or appends its encoded clauses as lines and sets `max_var` to their largest absolute literal, which one of them attains |
| CnfWriter.EncodeKnownTop | tools/order_and_encode.py:224-262 | with a known encoding every line of the loop is a standard clause, and the final `max_var` is the input one when no constraint was encoded, or else the largest variable of the last constraint's encoding |
| CnfWriter.KnownEncodingFile | tools/order_and_encode.py:221-276 | with a known encoding the file is a `p cnf` header with that final `max_var` and the number of following lines, then standard clause lines only |
| CnfWriter.PlainLines | tools/order_and_encode.py:261-262 | one plain line per standard clause |
| CnfWriter.EncodeFromPassthrough | tools/order_and_encode.py:224-262 | without constraints of bound above 1 the loop copies the clauses and keeps `max_var` |
| CnfWriter.CnfPassthrough | tools/order_and_encode.py:221-276 | such a formula is written clause for clause after its header |
| CnfWriter.EncodeFromUnknown | tools/order_and_encode.py:253-255 | with an unknown encoding name the loop succeeds exactly when no constraint has bound above 1 |
| CnfWriter.UnknownEncodingRejected | tools/order_and_encode.py:240-255 | an unknown encoding name is an error exactly when a cardinality constraint is present |
| CnfWriter.EncodeFromOriginal | tools/order_and_encode.py:237-238 | with `original_cardinality` each pair gives one line and `max_var` is unchanged |
| CnfWriter.OriginalCardinalityFile | tools/order_and_encode.py:237-271 | with `original_cardinality` the file is `p knf max_var n` and one line per pair reading back as that pair, constraints with rank-ordered literals; it fails only on an unranked literal |
| CnfWriter.ShuffleRenamed | tools/order_and_encode.py:226-227 | when renaming, constraint literals are ordered by increasing variable and permuted only |
| CnfWriter.SoftLines | tools/order_and_encode.py:300-301 | one `1 l 0` line per soft unit |
| CnfWriter.HardLines | tools/order_and_encode.py:302-303 | one `h` line per hard clause |
| CnfWriter.SplitKlauses | tools/order_and_encode.py:286-294 | the soft units are the constraint literals in file order and the clauses the standard ones |
| CnfWriter.WriteWcnf | tools/order_and_encode.py:284-305 | the lines written are the WCNF file of the pairs |
| CnfWriter.WcnfSoftUnits | tools/order_and_encode.py:284-305 | the soft units are the constraint literals with multiplicity, ascending, and the hard clauses follow in order |
| Pipeline.PamoOccurRewrite | tools/order_and_encode.py:505-507 | `PAMO+Occur` becomes PAMO with the limit one million |
| Pipeline.RandomFixedSeed | tools/order_and_encode.py:509-511 | `random_fixed_<n>` selects the fixed random order with seed n |
| Pipeline.OtherNamesUnchanged | tools/order_and_encode.py:505-511 | any other name passes unchanged |
| Pipeline.OccurrenceFallback | tools/order_and_encode.py:357-399 | above the limit the occurrence ordering replaces every name checked after `graphOcc`, never the graph orderings |
| Pipeline.UnknownOrdering | tools/order_and_encode.py:357-410 | below the limit a name is refused exactly when it is none of the seven known ones |
| Pipeline.RefusedWithoutHeaderResolves | tools/order_and_encode.py:345-410 | the refusal reached without a header is exactly the dispatch's refusal with no `-t` and `occLimit <= 0`, whatever `max_cls` is |
| Pipeline.RangeList | tools/order_and_encode.py:352-353 | the append loop builds `range(n)` |
| Pipeline.BuildVarMap | tools/order_and_encode.py:349-410 | natural gives the identity; random gives 0 then the shuffled 1..max_var; a file or script gives the parsed ordering, which succeeds exactly on an acceptable file |
| Pipeline.RandomFixedPermutation | tools/order_and_encode.py:364-370 | the random map is a permutation of 0..max_var with 0 first |
| Pipeline.RandomFixedRanked | tools/order_and_encode.py:362-414 | with a shuffle that permutes, the random map ranks every variable 1..max_var, so the printed order is reached and `OrderUnranked` never arises |
| Pipeline.Enumerate | tools/order_and_encode.py:123 | `list(set(...))` lists each element of the set once |
| Pipeline.EnumeratedFits | tools/order_and_encode.py:168-195 | any listing of the soft set sorts by rank and stays within `max_var` exactly when the set itself does, so the coverage branch's outcome does not depend on the set's order |
| Pipeline.RenameOkSoft | tools/order_and_encode.py:430-446 | when the rank map covers 0..max_var, the soft variables are at most `max_var` and every literal is ranked, the rename block gets through for any listing of the soft set |
| Pipeline.GenerateCnf | tools/order_and_encode.py:312-455 | a file with no empty line and no `p` line leaves `max_var` None: without `-t`, with `occLimit <= 0` and a name none of the seven, the name is refused (`UnknownOrderingName`, lines 408-410); any other options fail with `NoHeader`, the TypeError on None; every error names its cause: the header scan, a malformed header line (`HeaderMalformed`), or a later step for the header found; when the header is found, its fields read and every later step gets through, the run succeeds; success gives `max_var` and `max_cls` from the header and everything `Pipeline.FromHeader` gives; `-m` without `-c` fails with a TypeError, and that error arises only then |
| Pipeline.FromHeader | tools/order_and_encode.py:343-455 | an unknown ordering name fails with `UnknownOrderingName`, a refused ordering file with its parse error, an unranked variable of 1..max_var with `OrderUnranked`, otherwise lines 419-455 decide; when the name resolves, the file is acceptable and, for the rank map the strategy yields, the order sorts and lines 419-455 get through, the run succeeds; success gives that rank map, the order 1..max_var sorted by rank, and the coverage curve or the written file |
| Pipeline.Produce | tools/order_and_encode.py:419-455 | the first line `parse_knf` refuses gives the error, and success means a well-formed file; then the coverage or the write branch decides, with the same causes and the same success condition; coverage gives the curve whose entry i is the number of kept clauses whose soft variables are all among the first i soft variables sorted by rank (for some listing of the soft set), from 0 to the number of kept clauses; otherwise the map is the renaming when renaming and the rank map when not, and the output is the WCNF file (with `-c`), the CNF file or nothing; `-m` without `-c` fails with a TypeError, and that error arises only then |
| Pipeline.CoverageBranch | tools/order_and_encode.py:421-427 | succeeds exactly when every line is accepted by `parse_knf_remove_soft`, the plot name is one of the five in `print_coverage`, and the soft variables sort by rank and are at most `max_var`; otherwise the error is the first refused line, `NoCoverageIndex`, or `CoverageFailed`, in that order; the curve has one entry per soft variable plus one, entry i is the number of kept clauses covered by the first i soft variables in rank order, so it starts at 0 and ends at the number of kept clauses |
| Pipeline.WriteBranch | tools/order_and_encode.py:430-455 | with `-r`, a short rank map, a soft variable above `max_var` or an unranked literal fails with `RenameFailed`; otherwise `-m` without `-c` fails with a TypeError; otherwise only `write_cnf` can fail, and its error comes from the CNF writer for the map in use; when none of these happen the branch succeeds; the map is the rank map without `-r` and, with it, the one that sends rank position p of the soft variables to the p-th smallest and fixes the other indices up to `max_var`; the output is the WCNF file (with `-c`), the CNF file, or nothing |
| OccurOrdering.AddLine | tools/occur_ordering.py:82-93 | every count grows by the bound times the variable's occurrences in the line, or the line raises IndexError |
| OccurOrdering.CountOccurrences | tools/occur_ordering.py:65-93 | succeeds exactly when every line converts and fits; an error names the first bad line, as `BadLine` when it does not convert and `OutOfRange` when it does but does not fit; on success each count is the weighted occurrence count |
| OccurOrdering.SortByCount | tools/occur_ordering.py:97-100 | 1..max_var each once, by descending count, ties in ascending id |
| OccurOrdering.ByCount | tools/occur_ordering.py:97-100 | the stable sort by minus the count orders by count then id |
| OccurOrdering.OccurOrderingOf | tools/occur_ordering.py:36-106 | no header fails; otherwise success exactly when the header and every later line are fine, and the printed order is the occurrence order |
| OccurOrdering.OccurOrderUnique | tools/occur_ordering.py:97-106 | the printed order is determined by the counts: any two valid orders are equal |
| OccurOrdering.ChainUnique | tools/occur_ordering.py:97-106 | two permutations of each other, both ordered by one asymmetric relation, are equal |
| OccurOrdering.ChainHead | tools/occur_ordering.py:97-106 | and start with the same element |
| OccurOrdering.OccurExample | tools/occur_ordering.py:65-106 | on `k 2 1 2 0`, `3 -2 0`, `-3 0` with three variables the order is 2 1 3 |
| OccurOrdering.ExampleWeights | tools/occur_ordering.py:82-93 | the counts of that example are 2, 3 and 2 |
| VigCommunities.EdgesMembers | tools/VIG_ordering.py:204-205 | an edge joins two variables exactly when one clause holds both |
| VigCommunities.NodeRange | tools/VIG_ordering.py:197 | the first nodes are exactly 1..total_num_vars |
| VigCommunities.BuildGraph | tools/VIG_ordering.py:191-205 | every variable 1..total is a node and edges are exactly the clause pairs |
| VigCommunities.Canon | tools/VIG_ordering.py:232 | `sorted(map(sorted, c))` keeps the group count |
| VigCommunities.CanonShape | tools/VIG_ordering.py:232 | the canonical partition is lexicographically sorted, each group sorted and a permutation of an original group |
| VigCommunities.MaxLen | tools/VIG_ordering.py:229-230 | `max_num_communities` is the largest group count, attained by some pass |
| VigCommunities.Filter | tools/VIG_ordering.py:233-234 | exactly the partitions with that group count |
| VigCommunities.FilterNone | tools/VIG_ordering.py:229-234 | no partition reaches a larger count |
| VigCommunities.KeptStep | tools/VIG_ordering.py:229-234 | a larger count clears the list and keeps the new partition; an equal count appends it; a smaller one keeps the list |
| VigCommunities.KeptNonEmpty | tools/VIG_ordering.py:223-234 | some partition is kept exactly when a pass ran |
| VigCommunities.Runs | tools/VIG_ordering.py:228 | one canonical partition per pass, seeded by the pass index |
| VigCommunities.NoStopAll | tools/VIG_ordering.py:225-226 | no timeout test before pass n succeeded |
| VigCommunities.NoPasses | tools/VIG_ordering.py:223-226 | no pass runs exactly when the iteration limit is not positive or the first timeout test succeeds |
| VigCommunities.Retain | tools/VIG_ordering.py:229-234 | the loop body keeps the retained list and maximum correct |
| VigCommunities.Pass | tools/VIG_ordering.py:228-234 | one more pass keeps them correct |
| VigCommunities.Communities | tools/VIG_ordering.py:219-234 | the passes that ran are the ones before the first timeout or the limit, and the retained list is those with the most groups |
| VigOrdering.AbsAll | tools/VIG_ordering.py:163 | `_clause` holds the absolute value of every literal |
| VigOrdering.KIndexes | tools/VIG_ordering.py:156-157 | the positions of the `k` lines, ascending, all of them |
| VigOrdering.AddVars | tools/VIG_ordering.py:164-167 | each variable of the clause becomes a key and its count grows by its occurrences |
| VigOrdering.OccStep | tools/VIG_ordering.py:164-167 | the counts stay correct for the clauses with the new one appended |
| VigOrdering.FirstPass | tools/VIG_ordering.py:154-169 | succeeds exactly when every line has a first token and converts; an error names the first line that does not, as `EmptyLine` or `BadClause`; then the variable clauses, counts and `k` positions |
| VigOrdering.FillRow | tools/VIG_ordering.py:178-182 | entry v - 1 is the positive minus negative occurrences of v, or IndexError on a variable above `total_num_vars` |
| VigOrdering.SecondPass | tools/VIG_ordering.py:175-182 | succeeds exactly when every `k` line converts and fits; then the bounds and rows in order |
| VigOrdering.ParseVig | tools/VIG_ordering.py:146-182 | a bad header fails; success exactly on a parsable file, with the values both passes compute |
| VigOrdering.GroupDeviation | tools/VIG_ordering.py:251-253 | the total distance of the group sizes from the ideal size |
| VigOrdering.Select | tools/VIG_ordering.py:246-255 | no candidate, or an empty first candidate, is an error; otherwise the chosen partition is the last whose deviation is below the sentinel |
| VigOrdering.ChosenUnique | tools/VIG_ordering.py:250-255 | the selection is determined by the candidates |
| VigOrdering.SelectionKeepsLast | tools/VIG_ordering.py:250-255 | a case where a later candidate with larger deviation replaces a perfect one |
| VigOrdering.SortGroupsOrdered | tools/VIG_ordering.py:258-263 | each sorted group is a permutation of its group by descending count, ties in group order |
| VigOrdering.EmitAll | tools/VIG_ordering.py:269-276 | one literal list per constraint |
| VigOrdering.CopiesCount | tools/VIG_ordering.py:275 | the copies hold exactly n occurrences of the literal |
| VigOrdering.EmitCounts | tools/VIG_ordering.py:271-276 | a variable v appears positively row[v-1] times per group occurrence when positive, negatively when negative |
| VigOrdering.SortChosen | tools/VIG_ordering.py:258-263 | with `-s`, the groups sorted by count, or KeyError on an uncounted variable; otherwise the groups unchanged |
| VigOrdering.Group | tools/VIG_ordering.py:186-263 | the graph of the clauses; every error names its cause for some number of passes the limit and timeouts allow: no partition kept (`NoCommunities`), an empty first partition (`EmptyPartition`), or, with `-s`, a chosen community with a variable missing from `occ` (`MissingCount`); when, for every such number of passes, a partition is kept, its first entry is non-empty and, with `-s`, every chosen variable is counted, the run succeeds; success records steps 2-4 |
| VigOrdering.VigOrder | tools/VIG_ordering.py:115-306 | a bad header fails with `BadHeader` and an unparsable file with `EmptyLine`, `BadClause` or `BadConstraint`; otherwise the error is that of `VigOrdering.Group`, a variable of the order that indexes past a constraint's row (`BadIndex`), or, with `--only_order`, a file with no constraint (`NoConstraint`); when the file parses and none of these causes holds, the run succeeds; no pass ran is an error exactly when the limit or first timeout says so; success records every step of `main`, including what it prints: `Sorting` first with `-s`, then the order |
| VigOrdering.SortingRefused | tools/VIG_ordering.py:258-259 | with `-s` the printed output, read as an ordering file, is refused for every number of variables |
| MaxSatToKnf.PassPrefix | maxSAT_to_KNF/maxSAT2KNF.hpp:267-272 | one more iteration of the pass loop is one `Step` |
| MaxSatToKnf.PassCounts | maxSAT_to_KNF/maxSAT2KNF.hpp:267-275 | a pass counts and writes one clause per hard clause and relaxed soft clause, allocates one fresh variable per relaxed clause, and collects one soft unit per soft clause |
| MaxSatToKnf.From | maxSAT_to_KNF/maxSAT2KNF.hpp:259 | the run of fresh variables from `max_var + 1` |
| MaxSatToKnf.AtLeastAppend | maxSAT_to_KNF/maxSAT2KNF.hpp:198 | appending a soft unit to the list |
| MaxSatToKnf.PassFresh | maxSAT_to_KNF/maxSAT2KNF.hpp:196-200 | the soft units at or above `start` are exactly the fresh variables start, start + 1, ... in order |
| MaxSatToKnf.FixCounts | maxSAT_to_KNF/maxSAT2KNF.hpp:300-316 | `fix_MaxSAT` writes one line per hard clause and soft unit, two per other soft clause, and allocates the same fresh variables |
| MaxSatToKnf.KBound | maxSAT_to_KNF/maxSAT2KNF.hpp:279 | `soft_units.size() - add_bound` in `size_t`: below 2^64, and the true difference when that is in range |
| MaxSatToKnf.KnfCheck.constructor | maxSAT_to_KNF/maxSAT2KNF.hpp:21-24 | unweighted, no accumulated weight, nothing stored |
| MaxSatToKnf.KnfCheck.Header | maxSAT_to_KNF/maxSAT2KNF.hpp:26-32 | the three header values are recorded |
| MaxSatToKnf.KnfCheck.Clause | maxSAT_to_KNF/maxSAT2KNF.hpp:34-50 | an empty list changes nothing; otherwise the clause and its weights are appended and a soft weight other than `max_weight` accumulates; `stoi` failure is reported |
| MaxSatToKnf.KnfCheck.CardinalityConstraint | maxSAT_to_KNF/maxSAT2KNF.hpp:52-81 | empty lists and bound 0 are dropped and change nothing; bound 1 acts as `Clause` and leaves the constraint vectors alone; others are stored with weights and guard, leave the clause vectors alone, and accumulate their soft weight |
| MaxSatToKnf.KnfCheck.SetMaxVar | maxSAT_to_KNF/maxSAT2KNF.hpp:135-151 | `max_var` becomes at least every stored literal's variable, and stays put or equals one of them |
| MaxSatToKnf.KnfCheck.Raise | maxSAT_to_KNF/maxSAT2KNF.hpp:138-140 | the inner loop's maximum bounds every literal and is the old value or attained |
| MaxSatToKnf.KnfCheck.WriteKnf | maxSAT_to_KNF/maxSAT2KNF.hpp:97-131 | a comment, the header counting clauses and constraints, then one line per clause and per constraint that reads back as it when unweighted |
| MaxSatToKnf.KnfCheck.WriteHardClauseKnf | maxSAT_to_KNF/maxSAT2KNF.hpp:165-174 | the clause line when writing, and one more clause counted |
| MaxSatToKnf.KnfCheck.WriteSoftClauseKnf | maxSAT_to_KNF/maxSAT2KNF.hpp:182-203 | a unit joins the soft units; another clause is relaxed by a fresh variable that joins them |
| MaxSatToKnf.KnfCheck.RunPass | maxSAT_to_KNF/maxSAT2KNF.hpp:267-272 | the loop's lines, soft units, next fresh variable and count are those of the pass specification |
| MaxSatToKnf.KnfCheck.MaxSAT2KNF | maxSAT_to_KNF/maxSAT2KNF.hpp:220-298 | the header `p knf` with the fresh-variable top and clause count plus one, the optional `k` line over the soft units, then pass 2's lines |
| MaxSatToKnf.KnfCheck.FixMaxSat | maxSAT_to_KNF/maxSAT2KNF.hpp:300-316 | the lines are those of the `fix_MaxSAT` specification |
| MaxSatToKnf.HeaderCountsFresh | maxSAT_to_KNF/maxSAT2KNF.hpp:257-296 | with every literal at most `max_var`, the header counts the relaxed clauses and pass 2's fresh variables are exactly `max_var + 1 ...` |
| MaxSatToKnf.MaxSatExample | maxSAT_to_KNF/maxSAT2KNF.hpp:220-298 | one hard clause, a soft unit and a soft binary clause give `p knf 4 3`, `k 1 2 4 0`, `1 3 0`, `1 3 -4 0` |
| Proximity.Resize | tools/proximity/main.hpp:45-49 | `vector::resize`: the new length, the old prefix kept, zero filled |
| Proximity.Push | tools/proximity/main.hpp:66-71 | the occurrence lists keep their number |
| Proximity.PushAt | tools/proximity/main.hpp:66-71 | the list of v gains the entry once per literal of v with that sign |
| Proximity.Bump | tools/proximity/main.hpp:70 | the count table keeps its length |
| Proximity.BumpAt | tools/proximity/main.hpp:70 | the count of v grows by the number of literals over v |
| Proximity.PushEntries | tools/proximity/main.hpp:66-71 | pushing a valid entry keeps every list valid |
| Proximity.EntriesGrow | tools/proximity/main.hpp:113-116 | entries stay valid as constraints are added |
| Proximity.VarsOf | tools/proximity/main.hpp:168-169 | exactly the variables of the literals |
| Proximity.Seen | tools/proximity/main.hpp:245-262 | touching literals keeps the flag table's length |
| Proximity.SeenAppend | tools/proximity/main.hpp:245-262 | touching two lists in turn is touching their concatenation |
| Proximity.SeenFlags | tools/proximity/main.hpp:245-262 | flags only go from 0 to 1, and the work list only grows, by variables that were 0 and are now 1 |
| Proximity.SeenKeepsHeap | tools/proximity/main.hpp:249-254 | the work list stays a duplicate-free list of flag-1 variables |
| Proximity.RemoveKeepsHeap | tools/proximity/main.hpp:150-153 | removing the emitted element and flagging it 2 keeps the work list well formed |
| Proximity.ArgMax | tools/proximity/main.hpp:150 | `max_element`: a position of maximal score, the first such |
| Proximity.Constraint | tools/proximity/main.hpp:230-235 | a negative entry names AMO constraint -e, a non-negative one clause e |
| Proximity.Elems | tools/proximity/main.hpp:196 | the set of emitted variables |
| Proximity.HitsCount | tools/proximity/main.hpp:202-204 | without repetitions, `kCount`'s decrements count the distinct k-variables emitted |
| Proximity.StopsWhenAllEmitted | tools/proximity/main.hpp:201-206 | the loop stops right after a k-variable exactly when every k-variable is emitted |
| Proximity.CountDown | tools/proximity/main.hpp:196-206 | one emission keeps `kCount` equal to the k-variables not yet emitted and stops exactly when it falls to 0 |
| Proximity.KnfCheck.constructor | tools/proximity/main.hpp:34-36 | weight -1, nothing stored |
| Proximity.KnfCheck.Header | tools/proximity/main.hpp:39-51 | the header values are recorded and the four per-variable vectors resized to `max_var + 1` |
| Proximity.KnfCheck.Clause | tools/proximity/main.hpp:54-73 | an empty list changes nothing; otherwise the clause is stored, its index pushed to the sign's list of each literal, and the counts bumped |
| Proximity.KnfCheck.CardinalityConstraint | tools/proximity/main.hpp:76-100 | empty lists and bound 0 are dropped, bound 1 acts as `Clause`, others are stored |
| Proximity.KnfCheck.AMOConstraint | tools/proximity/main.hpp:103-119 | bounds up to 4 are ignored; otherwise the constraint is stored and `-index` pushed for each literal |
| Proximity.KnfCheck.GetVariableByOccur | tools/proximity/main.hpp:124-135 | the unseen k-variable with the most occurrences, smallest id on ties, or 0 when none has any |
| Proximity.KnfCheck.GetNextVariable | tools/proximity/main.hpp:140-157 | with an empty work list the occurrence choice; otherwise the first maximal-score entry, removed from the list |
| Proximity.KnfCheck.Touch | tools/proximity/main.hpp:245-262 | the flags and work list are those of touching the literals |
| Proximity.KnfCheck.Visit | tools/proximity/main.hpp:223-263 | the flags and work list are those of touching the constraints of the entries |
| Proximity.KnfCheck.Expand | tools/proximity/main.hpp:210-266 | positive then negative occurrences are touched, the work list stays well formed and emitted variables stay emitted |
| Proximity.KnfCheck.Emit | tools/proximity/main.hpp:193-199 | the next variable is flagged 2; it is the occurrence choice or an element removed from the work list; the order stays duplicate-free |
| Proximity.KnfCheck.RunStep | tools/proximity/main.hpp:193-266 | one iteration appends one variable, stops exactly when that completes the k-variables, and otherwise keeps the work list, the flags and `kCount` consistent |
| Proximity.KnfCheck.AddKVariables | tools/proximity/main.hpp:168-169 | the k-variables gain exactly the variables of the constraint |
| Proximity.KnfCheck.Run | tools/proximity/main.hpp:190-267 | at most `max_var` entries, all flagged 2, with no nonzero variable twice (0 may repeat); if fewer than `max_var`, the loop stopped at the last entry with every k-variable emitted, and never earlier |
| Proximity.KnfCheck.GetProximity | tools/proximity/main.hpp:164-267 | the k-variables of constraint 0 are added; the order is duplicate-free, at most `max_var` long, and ends exactly when the last k-variable is emitted or `max_var` variables are out |

## Left out

- File I/O, `print`/`cout` diagnostics and command-line parsing (`getopt`, `argparse`, `main.cpp`, `maxSAT2KNF.cpp`): files become token lines and results are returned.
- `knf-parse.hpp` is not part of this model: the C++ observers are driven by their callback methods directly, with the literals, bound, weight and weight text as arguments.
- Weights declared `double` in the C++ callbacks are taken as integers.
- Louvain community detection (networkx), the wall-clock timeout, `random.shuffle`, PySAT's `CardEnc.atleast` and the external ordering scripts are function parameters, not modelled.
- Proximity.KnfCheck.GetProximity: the floating-point scores, `processed_order_bias`, `iteration_bias` and the overwritten `bias_change` (lines 176-186, 229-261) are replaced by a score function of the order emitted so far, so the contract does not name which work-list entry is chosen, only that it is one of them; `score_heap`, `new_vars`, `changed_vars` and `AMO_vars` are never read and are left out.
- Proximity.KnfCheck.Expand: the two-iteration `switch_occ` loop is written as two calls, positive list first.
- Proximity.KnfCheck.Header: requires `max_var + 1` at least the current vector size; shrinking vectors (a second, smaller header) is not modelled.
- Proximity.KnfCheck.constructor: `max_var` is left uninitialised by the C++ constructor until `Header`; the model starts it at -1.
- MaxSatToKnf.KnfCheck.MaxSAT2KNF: `pos_used_soft_lits`/`neg_used_soft_lits` are written but never read (their check is commented out) and are not modelled, nor the out-of-range write when a soft unit's variable exceeds `max_var`.
- MaxSatToKnf.KnfCheck.Clause: 32-bit overflow of `acc_soft_weight` and of the ids is not modelled.
- Pipeline.CoverageBranch, Pipeline.Produce, Pipeline.FromHeader and Pipeline.GenerateCnf: Python's iteration order of a set is not modelled, so the coverage curve and the renaming are stated for some listing of the soft set, each variable once.
- Pipeline.BuildVarMap, Pipeline.FromHeader and Pipeline.GenerateCnf: `shuffle` is any function, not required to permute; `Pipeline.RandomFixedPermutation` and `Pipeline.RandomFixedRanked` state what follows when it does, as `random.shuffle` always does.
- `print_coverage`'s tikz formatting, colours and marks are not modelled; only the curve `nCovs` is.
- `remove_comment`, `write_soft_unit` and `write_card` are never called on the modelled paths and are left out.
- VigOrdering.VigOrder: with an output file, the `k` lines go to that file and only `Sorting` goes to standard output; the model records the printed output of the run without an output file, the one `graph` and `graphOcc` use.
- VigOrdering.StartsWithK: tests whether the first token of a line is `k`, while `line.startswith("k")` (`tools/VIG_ordering.py:298`) tests the raw text, so a line with leading blanks before `k`, or whose first token only starts with `k`, is classified differently.
- LiteralOrder.RenameKeepsSigns and LiteralOrder.RenameInjective: stated for literals whose variable is at most `max_var` and for soft variables other than 0. A successful rename block already keeps every soft variable in 0..`max_var`; a literal above the header's `max_var` makes `rename_knf` index past the map, and that failure is modelled by `LiteralOrder.RenameKnf` instead.
- C++ out-of-range vector indexing is a precondition (`Valid`, `Flags`, `LitsBelow`) rather than modelled behaviour.
