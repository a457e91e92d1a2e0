/** Writing the encoded formula (tools/order_and_encode.py, `write_cnf` and
    `write_wcnf`). Output lines are token lists, one per line of the file;
    PySAT's `CardEnc.atleast` is a parameter of the model. */
module CnfWriter {
  import opened Wrappers
  import opened Common
  import opened Sorting
  import opened LiteralOrder

  /** The six PySAT encodings the script accepts by name. */
  datatype Encoding = SeqCounter | Totalizer | SortNetwrk | CardNetwrk | MTotalizer | KMTotalizer

  function EncodingOf(name: string): Option<Encoding>
  {
    if name == "seqcounter" then Some(SeqCounter)
    else if name == "totalizer" then Some(Totalizer)
    else if name == "sortnetwrk" then Some(SortNetwrk)
    else if name == "cardnetwrk" then Some(CardNetwrk)
    else if name == "mtotalizer" then Some(MTotalizer)
    else if name == "kmtotalizer" then Some(KMTotalizer)
    else None
  }

  /** `CardEnc.atleast(lits, bound, top_id, encoding).clauses`. */
  type Encoder = (Encoding, seq<int>, int, int) -> seq<seq<int>>

  /** The encoding name that keeps cardinality constraints as `k` lines. */
  const OriginalCardinality: string := "original_cardinality"

  datatype WriteError =
    | UnrankedLiteral              // IndexError in `sort_literals`
    | UnknownEncoding(name: string) // "encoding type not recognized", then `exit()`
    | EmptyEncoding                // `max()` of an empty list

  /** `write_clause`: the literals and the terminating 0. */
  function ClauseLine(lits: seq<int>): seq<Token> { Nums(lits) + [Num(0)] }

  /** A cardinality constraint kept as `k bound lits 0`. */
  function CardLine(bound: int, lits: seq<int>): seq<Token> { [Word("k"), Num(bound)] + Nums(lits) + [Num(0)] }

  /** `write_hclause`: a hard clause of the WCNF output. */
  function HardLine(lits: seq<int>): seq<Token> { [Word("h")] + ClauseLine(lits) }

  /** A soft unit of weight 1 in the WCNF output. */
  function SoftLine(l: int): seq<Token> { [Num(1), Num(l), Num(0)] }

  function ClauseLines(cls: seq<seq<int>>): (r: seq<seq<Token>>)
    ensures |r| == |cls| && forall i :: 0 <= i < |cls| ==> r[i] == ClauseLine(cls[i])
  {
    seq(|cls|, i requires 0 <= i < |cls| => ClauseLine(cls[i]))
  }

  /** A written clause reads back, in `parse_knf`, as the same standard clause. */
  lemma ClauseLineRead(lits: seq<int>)
    ensures ClassifyLine(ClauseLine(lits)) == Plain(lits)
  {
    var line := ClauseLine(lits);
    assert line[0].Num?;
    assert DropLast(line) == Nums(lits);
  }

  /** A written `k` line reads back as the same cardinality constraint. */
  lemma CardLineRead(bound: int, lits: seq<int>)
    ensures ClassifyLine(CardLine(bound, lits)) == Card(bound, lits)
  {
    var line := CardLine(bound, lits);
    assert Middle(line) == Nums(lits);
  }

  /** The `p` line: `knf` when constraints are kept, otherwise `cnf`. */
  function Header(name: string, maxVar: int, n: nat): seq<Token>
  {
    [Word("p"), Word(if name == OriginalCardinality then "knf" else "cnf"), Num(maxVar), Num(n)]
  }

  /** The literal order a constraint is encoded in: rank order of `var_map`,
      or variable order (`range(0, max_var + 1)`) when renaming. */
  function Shuffle(lits: seq<int>, varMap: seq<int>, maxVar: int, rename: bool): Option<seq<int>>
  {
    SortLiterals(lits, if rename then Identity(maxVar + 1) else varMap)
  }

  /** One pair of the loop of `write_cnf`: the lines it adds and the new `max_var`. */
  function EncodeKlause(k: Klause, varMap: seq<int>, maxVar: int, name: string, rename: bool, enc: Encoder)
    : Result<(seq<seq<Token>>, int), WriteError>
  {
    if k.bound <= 1 then Ok(([ClauseLine(k.lits)], maxVar))
    else
      match Shuffle(k.lits, varMap, maxVar, rename)
      case None => Err(UnrankedLiteral)
      case Some(sh) =>
        if name == OriginalCardinality then Ok(([CardLine(k.bound, sh)], maxVar))
        else
          match EncodingOf(name)
          case None => Err(UnknownEncoding(name))
          case Some(e) =>
            var cnf := enc(e, sh, k.bound, maxVar);
            if cnf == [] || [] in cnf then Err(EmptyEncoding)
            else Ok((ClauseLines(cnf), MaxAbs(cnf)))
  }

  /** The loop of `write_cnf` from the pairs `ks` on, with the lines `acc`
      already produced. */
  function EncodeFrom(ks: seq<Klause>, varMap: seq<int>, maxVar: int, name: string, rename: bool, enc: Encoder,
                      acc: seq<seq<Token>>): Result<(seq<seq<Token>>, int), WriteError>
    decreases |ks|
  {
    if ks == [] then Ok((acc, maxVar))
    else
      match EncodeKlause(ks[0], varMap, maxVar, name, rename, enc)
      case Err(e) => Err(e)
      case Ok((lines, m)) => EncodeFrom(ks[1..], varMap, m, name, rename, enc, acc + lines)
  }

  /** The file `write_cnf` writes. */
  function CnfFile(ks: seq<Klause>, varMap: seq<int>, maxVar: int, name: string, rename: bool, enc: Encoder)
    : Result<seq<seq<Token>>, WriteError>
  {
    match EncodeFrom(ks, varMap, maxVar, name, rename, enc, [])
    case Err(e) => Err(e)
    case Ok((lines, m)) => Ok([Header(name, m, |lines|)] + lines)
  }

  /** `write_cnf`: replaces each cardinality constraint (bound above 1) by its
      encoding over the reordered literals, or keeps it as a `k` line, and
      writes the header and the clauses. */
  method WriteCnf(ks: seq<Klause>, varMap: seq<int>, maxVar: int, name: string, rename: bool, enc: Encoder)
    returns (r: Result<seq<seq<Token>>, WriteError>)
    ensures r == CnfFile(ks, varMap, maxVar, name, rename, enc)
  {
    var clauses: seq<seq<Token>> := [];
    var m := maxVar;
    var i := 0;
    while i < |ks|
      invariant 0 <= i <= |ks|
      invariant EncodeFrom(ks, varMap, maxVar, name, rename, enc, []) == EncodeFrom(ks[i..], varMap, m, name, rename, enc, clauses)
    {
      var k := ks[i];
      assert ks[i..][0] == k && ks[i..][1..] == ks[i + 1..];
      if k.bound > 1 {
        var shuffled := SortLiterals(k.lits, if rename then Identity(m + 1) else varMap);
        if shuffled.None? {
          return Err(UnrankedLiteral);
        }
        if name == OriginalCardinality {
          clauses := clauses + [CardLine(k.bound, shuffled.value)];
        } else {
          var e := EncodingOf(name);
          if e.None? {
            return Err(UnknownEncoding(name));
          }
          var cnf := enc(e.value, shuffled.value, k.bound, m);
          if cnf == [] || [] in cnf {
            return Err(EmptyEncoding);
          }
          m := MaxAbs(cnf);
          clauses := clauses + ClauseLines(cnf);
        }
      } else {
        clauses := clauses + [ClauseLine(k.lits)];
      }
      i := i + 1;
    }
    return Ok([Header(name, m, |clauses|)] + clauses);
  }

  /** The lines of pairs written as standard clauses. */
  function PlainLines(ks: seq<Klause>): (r: seq<seq<Token>>)
    ensures |r| == |ks| && forall i :: 0 <= i < |ks| ==> r[i] == ClauseLine(ks[i].lits)
  {
    seq(|ks|, i requires 0 <= i < |ks| => ClauseLine(ks[i].lits))
  }

  lemma {:induction false} EncodeFromPassthrough(ks: seq<Klause>, varMap: seq<int>, maxVar: int, name: string, rename: bool,
                                                 enc: Encoder, acc: seq<seq<Token>>)
    requires forall i :: 0 <= i < |ks| ==> ks[i].bound <= 1
    ensures EncodeFrom(ks, varMap, maxVar, name, rename, enc, acc) == Ok((acc + PlainLines(ks), maxVar))
    decreases |ks|
  {
    if ks == [] {
      assert acc + PlainLines(ks) == acc;
    } else {
      var ks' := ks[1..];
      EncodeFromPassthrough(ks', varMap, maxVar, name, rename, enc, acc + [ClauseLine(ks[0].lits)]);
      assert acc + [ClauseLine(ks[0].lits)] + PlainLines(ks') == acc + PlainLines(ks);
    }
  }

  /** A formula without cardinality constraints is written clause for clause,
      whatever the encoding name (an unknown one included), with `max_var`
      unchanged. */
  lemma CnfPassthrough(ks: seq<Klause>, varMap: seq<int>, maxVar: int, name: string, rename: bool, enc: Encoder)
    requires forall i :: 0 <= i < |ks| ==> ks[i].bound <= 1
    ensures CnfFile(ks, varMap, maxVar, name, rename, enc) == Ok([Header(name, maxVar, |ks|)] + PlainLines(ks))
  {
    EncodeFromPassthrough(ks, varMap, maxVar, name, rename, enc, []);
    assert [] + PlainLines(ks) == PlainLines(ks);
  }

  lemma {:induction false} EncodeFromUnknown(ks: seq<Klause>, varMap: seq<int>, maxVar: int, name: string, rename: bool,
                                             enc: Encoder, acc: seq<seq<Token>>)
    requires name != OriginalCardinality && EncodingOf(name).None?
    ensures EncodeFrom(ks, varMap, maxVar, name, rename, enc, acc).Ok? <==> forall i :: 0 <= i < |ks| ==> ks[i].bound <= 1
    decreases |ks|
  {
    if ks != [] {
      EncodeFromUnknown(ks[1..], varMap, maxVar, name, rename, enc, acc + [ClauseLine(ks[0].lits)]);
      if ks[0].bound <= 1 {
        assert forall i :: 1 <= i < |ks| ==> ks[i] == ks[1..][i - 1];
      }
    }
  }

  /** An unrecognised encoding name is an error exactly when there is a
      cardinality constraint to encode. */
  lemma UnknownEncodingRejected(ks: seq<Klause>, varMap: seq<int>, maxVar: int, name: string, rename: bool, enc: Encoder)
    requires name != OriginalCardinality && EncodingOf(name).None?
    ensures CnfFile(ks, varMap, maxVar, name, rename, enc).Ok? <==> forall i :: 0 <= i < |ks| ==> ks[i].bound <= 1
  {
    EncodeFromUnknown(ks, varMap, maxVar, name, rename, enc, []);
  }

  /** The loop of `write_cnf` is a left fold: the pairs after a prefix are
      encoded from the lines and the `max_var` the prefix left. */
  lemma {:induction false} EncodeFromConcat(a: seq<Klause>, b: seq<Klause>, varMap: seq<int>, maxVar: int, name: string,
                                            rename: bool, enc: Encoder, acc: seq<seq<Token>>)
    ensures EncodeFrom(a + b, varMap, maxVar, name, rename, enc, acc) ==
      match EncodeFrom(a, varMap, maxVar, name, rename, enc, acc)
      case Err(e) => Err(e)
      case Ok((lines, m)) => EncodeFrom(b, varMap, m, name, rename, enc, lines)
    decreases |a|
  {
    if a == [] {
      assert a + b == b;
    } else {
      assert (a + b)[0] == a[0] && (a + b)[1..] == a[1..] + b;
      match EncodeKlause(a[0], varMap, maxVar, name, rename, enc)
      case Err(e) =>
      case Ok((lines, m)) => EncodeFromConcat(a[1..], b, varMap, m, name, rename, enc, acc + lines);
    }
  }

  /** With one of the six PySAT encodings, a cardinality constraint is
      replaced by the clauses `CardEnc.atleast` gives for its reordered
      literals, with the current `max_var` as the top id; `max_var` becomes the
      largest variable of those clauses, which may lie below the old one. An
      unranked literal, an empty encoding or an empty clause is an error. */
  lemma EncodeKnownOne(k: Klause, varMap: seq<int>, maxVar: int, name: string, rename: bool, enc: Encoder,
                       acc: seq<seq<Token>>)
    requires EncodingOf(name).Some? && k.bound > 1
    ensures var r := EncodeFrom([k], varMap, maxVar, name, rename, enc, acc);
      var sh := Shuffle(k.lits, varMap, maxVar, rename);
      && (sh.None? ==> r == Err(UnrankedLiteral))
      && (sh.Some? ==>
            var cnf := enc(EncodingOf(name).value, sh.value, k.bound, maxVar);
            && (cnf == [] || [] in cnf ==> r == Err(EmptyEncoding))
            && (cnf != [] && [] !in cnf ==>
                  && r == Ok((acc + ClauseLines(cnf), MaxAbs(cnf)))
                  && (forall c, l :: c in cnf && l in c ==> Abs(l) <= r.value.1)
                  && (exists c, l :: c in cnf && l in c && Abs(l) == r.value.1)))
  {
    assert name != OriginalCardinality;
    assert [k][0] == k && [k][1..] == [];
  }

  /** The pair at `i` is the last cardinality constraint, and `top` is the
      largest variable of its encoding, made with the `max_var` the pairs
      before it left. */
  ghost predicate LastEncoded(ks: seq<Klause>, varMap: seq<int>, maxVar: int, name: string, rename: bool, enc: Encoder,
                              i: int, top: int)
    requires EncodingOf(name).Some?
  {
    && 0 <= i < |ks| && ks[i].bound > 1
    && (forall j :: i < j < |ks| ==> ks[j].bound <= 1)
    && var p := EncodeFrom(ks[..i], varMap, maxVar, name, rename, enc, []);
       && p.Ok?
       && var sh := Shuffle(ks[i].lits, varMap, p.value.1, rename);
          && sh.Some?
          && top == MaxAbs(enc(EncodingOf(name).value, sh.value, ks[i].bound, p.value.1))
  }

  /** What the loop has produced with a known encoding: lines that are all
      standard clauses, and a `max_var` that is the input one with no
      cardinality constraint so far, or that of the last encoding. */
  ghost predicate KnownSoFar(ks: seq<Klause>, varMap: seq<int>, maxVar: int, name: string, rename: bool, enc: Encoder,
                             lines: seq<seq<Token>>, top: int)
    requires EncodingOf(name).Some?
  {
    && (forall t :: 0 <= t < |lines| ==> ClassifyLine(lines[t]).Plain?)
    && ((top == maxVar && forall i :: 0 <= i < |ks| ==> ks[i].bound <= 1) ||
        exists i :: LastEncoded(ks, varMap, maxVar, name, rename, enc, i, top))
  }

  lemma KnownSoFarPlain(a: seq<Klause>, last: Klause, varMap: seq<int>, maxVar: int, name: string, rename: bool,
                        enc: Encoder, lines: seq<seq<Token>>, top: int)
    requires EncodingOf(name).Some? && last.bound <= 1
    requires KnownSoFar(a, varMap, maxVar, name, rename, enc, lines, top)
    ensures KnownSoFar(a + [last], varMap, maxVar, name, rename, enc, lines + [ClauseLine(last.lits)], top)
  {
    var ks, out := a + [last], lines + [ClauseLine(last.lits)];
    ClauseLineRead(last.lits);
    forall t | 0 <= t < |out| ensures ClassifyLine(out[t]).Plain? {
      if t < |lines| { assert out[t] == lines[t]; } else { assert out[t] == ClauseLine(last.lits); }
    }
    if !(top == maxVar && forall i :: 0 <= i < |a| ==> a[i].bound <= 1) {
      var i :| LastEncoded(a, varMap, maxVar, name, rename, enc, i, top);
      assert ks[..i] == a[..i] && ks[i] == a[i];
      assert LastEncoded(ks, varMap, maxVar, name, rename, enc, i, top);
    } else {
      assert forall i :: 0 <= i < |ks| ==> ks[i].bound <= 1 by {
        forall i | 0 <= i < |ks| ensures ks[i].bound <= 1 {
          if i < |a| { assert ks[i] == a[i]; }
        }
      }
    }
  }

  lemma KnownSoFarEncoded(a: seq<Klause>, last: Klause, varMap: seq<int>, maxVar: int, name: string, rename: bool,
                          enc: Encoder, lines: seq<seq<Token>>, top: int, cnf: seq<seq<int>>)
    requires EncodingOf(name).Some? && last.bound > 1
    requires EncodeFrom(a, varMap, maxVar, name, rename, enc, []) == Ok((lines, top))
    requires KnownSoFar(a, varMap, maxVar, name, rename, enc, lines, top)
    requires Shuffle(last.lits, varMap, top, rename).Some?
    requires cnf == enc(EncodingOf(name).value, Shuffle(last.lits, varMap, top, rename).value, last.bound, top)
    ensures KnownSoFar(a + [last], varMap, maxVar, name, rename, enc, lines + ClauseLines(cnf), MaxAbs(cnf))
  {
    var ks, out := a + [last], lines + ClauseLines(cnf);
    forall t | 0 <= t < |out| ensures ClassifyLine(out[t]).Plain? {
      if t < |lines| {
        assert out[t] == lines[t];
      } else {
        assert out[t] == ClauseLine(cnf[t - |lines|]);
        ClauseLineRead(cnf[t - |lines|]);
      }
    }
    assert ks[..|a|] == a && ks[|a|] == last;
    assert LastEncoded(ks, varMap, maxVar, name, rename, enc, |a|, MaxAbs(cnf));
  }

  lemma {:induction false} EncodeKnownTop(ks: seq<Klause>, varMap: seq<int>, maxVar: int, name: string, rename: bool,
                                          enc: Encoder)
    requires EncodingOf(name).Some?
    ensures var r := EncodeFrom(ks, varMap, maxVar, name, rename, enc, []);
      r.Ok? ==> KnownSoFar(ks, varMap, maxVar, name, rename, enc, r.value.0, r.value.1)
  {
    var r := EncodeFrom(ks, varMap, maxVar, name, rename, enc, []);
    if ks == [] {
      assert r == Ok(([], maxVar));
    } else if r.Ok? {
      var n := |ks| - 1;
      var a, last := ks[..n], ks[n];
      assert ks == a + [last];
      EncodeFromConcat(a, [last], varMap, maxVar, name, rename, enc, []);
      EncodeKnownTop(a, varMap, maxVar, name, rename, enc);
      var (l, m) := EncodeFrom(a, varMap, maxVar, name, rename, enc, []).value;
      assert r == EncodeFrom([last], varMap, m, name, rename, enc, l);
      if last.bound <= 1 {
        assert [last][0] == last && [last][1..] == [];
        assert r.value == (l + [ClauseLine(last.lits)], m);
        KnownSoFarPlain(a, last, varMap, maxVar, name, rename, enc, l, m);
      } else {
        EncodeKnownOne(last, varMap, m, name, rename, enc, l);
        var cnf := enc(EncodingOf(name).value, Shuffle(last.lits, varMap, m, rename).value, last.bound, m);
        KnownSoFarEncoded(a, last, varMap, maxVar, name, rename, enc, l, m, cnf);
      }
    }
  }

  /** With one of the six PySAT encodings `write_cnf` writes a CNF file: a
      `p cnf` header whose clause count is the number of lines after it, every
      line a standard clause, and as `max_var` the input one when there is no
      cardinality constraint, otherwise the largest variable of the encoding of
      the last one. */
  lemma KnownEncodingFile(ks: seq<Klause>, varMap: seq<int>, maxVar: int, name: string, rename: bool, enc: Encoder)
    requires EncodingOf(name).Some?
    ensures var r := CnfFile(ks, varMap, maxVar, name, rename, enc);
      r.Ok? ==>
        && |r.value| >= 1 && |r.value[0]| == 4 && r.value[0][2].Num?
        && r.value[0] == [Word("p"), Word("cnf"), Num(r.value[0][2].value), Num(|r.value| - 1)]
        && (forall t :: 1 <= t < |r.value| ==> ClassifyLine(r.value[t]).Plain?)
        && ((r.value[0][2].value == maxVar && forall i :: 0 <= i < |ks| ==> ks[i].bound <= 1) ||
            exists i :: LastEncoded(ks, varMap, maxVar, name, rename, enc, i, r.value[0][2].value))
  {
    assert name != OriginalCardinality;
    EncodeKnownTop(ks, varMap, maxVar, name, rename, enc);
    var e := EncodeFrom(ks, varMap, maxVar, name, rename, enc, []);
    if e.Ok? {
      var r := CnfFile(ks, varMap, maxVar, name, rename, enc).value;
      assert r == [Header(name, e.value.1, |e.value.0|)] + e.value.0;
      assert forall t :: 1 <= t < |r| ==> r[t] == e.value.0[t - 1];
    }
  }

  /** With `original_cardinality` each pair gives one line and `max_var` does
      not move. */
  function KeptLine(k: Klause, sh: Option<seq<int>>): seq<Token>
  {
    if k.bound > 1 && sh.Some? then CardLine(k.bound, sh.value) else ClauseLine(k.lits)
  }

  lemma {:induction false} EncodeFromOriginal(ks: seq<Klause>, varMap: seq<int>, maxVar: int, rename: bool, enc: Encoder,
                                              acc: seq<seq<Token>>)
    ensures var r := EncodeFrom(ks, varMap, maxVar, OriginalCardinality, rename, enc, acc);
      && (r.Ok? <==> forall i :: 0 <= i < |ks| && ks[i].bound > 1 ==> Shuffle(ks[i].lits, varMap, maxVar, rename).Some?)
      && (r.Ok? ==>
            r.value.1 == maxVar &&
            r.value.0 == acc + seq(|ks|, i requires 0 <= i < |ks| => KeptLine(ks[i], Shuffle(ks[i].lits, varMap, maxVar, rename))))
    decreases |ks|
  {
    if ks != [] {
      var ks' := ks[1..];
      var line := KeptLine(ks[0], Shuffle(ks[0].lits, varMap, maxVar, rename));
      EncodeFromOriginal(ks', varMap, maxVar, rename, enc, acc + [line]);
      assert forall i :: 1 <= i < |ks| ==> ks[i] == ks'[i - 1];
      assert acc + [line] + seq(|ks'|, i requires 0 <= i < |ks'| => KeptLine(ks'[i], Shuffle(ks'[i].lits, varMap, maxVar, rename))) ==
        acc + seq(|ks|, i requires 0 <= i < |ks| => KeptLine(ks[i], Shuffle(ks[i].lits, varMap, maxVar, rename)));
    }
  }

  /** With `original_cardinality` the output is a KNF file: a `p knf` header
      with `max_var` and the number of pairs, then one line per pair that reads
      back as that pair, the literals of each cardinality constraint in the new
      order. The only error is an unranked literal. */
  lemma OriginalCardinalityFile(ks: seq<Klause>, varMap: seq<int>, maxVar: int, rename: bool, enc: Encoder)
    ensures var r := CnfFile(ks, varMap, maxVar, OriginalCardinality, rename, enc);
      && (r.Ok? <==> forall i :: 0 <= i < |ks| && ks[i].bound > 1 ==> Shuffle(ks[i].lits, varMap, maxVar, rename).Some?)
      && (r.Ok? ==>
           && |r.value| == |ks| + 1
           && r.value[0] == [Word("p"), Word("knf"), Num(maxVar), Num(|ks|)]
           && forall i :: 0 <= i < |ks| ==>
                ClassifyLine(r.value[i + 1]) ==
                  if ks[i].bound > 1 then Card(ks[i].bound, Shuffle(ks[i].lits, varMap, maxVar, rename).value)
                  else Plain(ks[i].lits))
  {
    EncodeFromOriginal(ks, varMap, maxVar, rename, enc, []);
    var r := CnfFile(ks, varMap, maxVar, OriginalCardinality, rename, enc);
    if r.Ok? {
      forall i | 0 <= i < |ks|
        ensures ClassifyLine(r.value[i + 1]) ==
          if ks[i].bound > 1 then Card(ks[i].bound, Shuffle(ks[i].lits, varMap, maxVar, rename).value)
          else Plain(ks[i].lits)
      {
        if ks[i].bound > 1 {
          CardLineRead(ks[i].bound, Shuffle(ks[i].lits, varMap, maxVar, rename).value);
        } else {
          ClauseLineRead(ks[i].lits);
        }
      }
    }
  }

  /** When renaming, the literals of a constraint are encoded in increasing
      variable order. */
  lemma ShuffleRenamed(lits: seq<int>, varMap: seq<int>, maxVar: int)
    requires Shuffle(lits, varMap, maxVar, true).Some?
    ensures var r := Shuffle(lits, varMap, maxVar, true).value;
      multiset(r) == multiset(lits) && forall i, j :: 0 <= i < j < |r| ==> Abs(r[i]) <= Abs(r[j])
  {
    var id := Identity(maxVar + 1);
    if |lits| >= 2 {
      SortLiteralsSorted(lits, id);
    } else {
      StableSortPermutation(lits, Rank(id));
    }
  }

  /** The literals of the cardinality constraints (bound above 1), in file order. */
  function CardLits(ks: seq<Klause>): seq<int>
  {
    if ks == [] then [] else CardLits(ks[..|ks| - 1]) + (if ks[|ks| - 1].bound > 1 then ks[|ks| - 1].lits else [])
  }

  /** The standard clauses (bound at most 1), in file order. */
  function HardClauses(ks: seq<Klause>): seq<seq<int>>
  {
    if ks == [] then [] else HardClauses(ks[..|ks| - 1]) + (if ks[|ks| - 1].bound > 1 then [] else [ks[|ks| - 1].lits])
  }

  /** The file `write_wcnf` writes. */
  function WcnfFile(ks: seq<Klause>): seq<seq<Token>>
  {
    SoftLines(Ascending(CardLits(ks))) + HardLines(HardClauses(ks))
  }

  function SoftLines(s: seq<int>): (r: seq<seq<Token>>)
    ensures |r| == |s| && forall i :: 0 <= i < |s| ==> r[i] == SoftLine(s[i])
  {
    seq(|s|, i requires 0 <= i < |s| => SoftLine(s[i]))
  }

  function HardLines(cls: seq<seq<int>>): (r: seq<seq<Token>>)
    ensures |r| == |cls| && forall i :: 0 <= i < |cls| ==> r[i] == HardLine(cls[i])
  {
    seq(|cls|, i requires 0 <= i < |cls| => HardLine(cls[i]))
  }

  /** The loop of `write_wcnf` over the pairs: the literals of every constraint
      of bound above 1 join `soft_units`, every other pair joins `clauses`. */
  method SplitKlauses(ks: seq<Klause>) returns (clauses: seq<seq<int>>, softUnits: seq<int>)
    ensures softUnits == CardLits(ks) && clauses == HardClauses(ks)
  {
    clauses, softUnits := [], [];
    var i := 0;
    while i < |ks|
      invariant 0 <= i <= |ks|
      invariant softUnits == CardLits(ks[..i]) && clauses == HardClauses(ks[..i])
    {
      assert ks[..i + 1][..i] == ks[..i];
      if ks[i].bound > 1 {
        var j := 0;
        while j < |ks[i].lits|
          invariant 0 <= j <= |ks[i].lits|
          invariant softUnits == CardLits(ks[..i]) + ks[i].lits[..j]
        {
          softUnits := softUnits + [ks[i].lits[j]];
          j := j + 1;
        }
        assert ks[i].lits[..j] == ks[i].lits;
      } else {
        clauses := clauses + [ks[i].lits];
      }
      i := i + 1;
    }
    assert ks[..i] == ks;
  }

  /** `write_wcnf`: every literal of a cardinality constraint becomes a soft
      unit of weight 1, in ascending order, and every standard clause a hard
      clause. */
  method WriteWcnf(ks: seq<Klause>) returns (lines: seq<seq<Token>>)
    ensures lines == WcnfFile(ks)
  {
    var clauses, softUnits := SplitKlauses(ks);
    var a := new int[|softUnits|](k requires 0 <= k < |softUnits| => softUnits[k]);
    assert a[..] == softUnits;
    StableSortInPlace(a, x => x);
    var sorted := a[..];
    lines := [];
    var k := 0;
    while k < |sorted|
      invariant 0 <= k <= |sorted|
      invariant lines == SoftLines(sorted[..k])
    {
      SoftLinesPrefix(sorted, k);
      lines := lines + [SoftLine(sorted[k])];
      k := k + 1;
    }
    assert sorted[..k] == sorted;
    ghost var soft := lines;
    k := 0;
    while k < |clauses|
      invariant 0 <= k <= |clauses|
      invariant lines == soft + HardLines(clauses[..k])
    {
      HardLinesPrefix(clauses, k);
      lines := lines + [HardLine(clauses[k])];
      k := k + 1;
    }
    assert clauses[..k] == clauses;
  }

  lemma SoftLinesPrefix(s: seq<int>, k: nat)
    requires k < |s|
    ensures SoftLines(s[..k + 1]) == SoftLines(s[..k]) + [SoftLine(s[k])]
  {
    var l, r := SoftLines(s[..k + 1]), SoftLines(s[..k]) + [SoftLine(s[k])];
    assert |l| == |r|;
    forall i | 0 <= i < |l| ensures l[i] == r[i] {
      assert s[..k + 1][i] == s[i];
    }
  }

  lemma HardLinesPrefix(cls: seq<seq<int>>, k: nat)
    requires k < |cls|
    ensures HardLines(cls[..k + 1]) == HardLines(cls[..k]) + [HardLine(cls[k])]
  {
    var l, r := HardLines(cls[..k + 1]), HardLines(cls[..k]) + [HardLine(cls[k])];
    assert |l| == |r|;
    forall i | 0 <= i < |l| ensures l[i] == r[i] {
      assert cls[..k + 1][i] == cls[i];
    }
  }

  /** The soft units of the WCNF file are the literals of the cardinality
      constraints, each as often as it occurs, in ascending order; the hard
      clauses follow. */
  lemma WcnfSoftUnits(ks: seq<Klause>)
    ensures var soft := Ascending(CardLits(ks));
      && |WcnfFile(ks)| == |CardLits(ks)| + |HardClauses(ks)|
      && multiset(soft) == multiset(CardLits(ks))
      && (forall i, j :: 0 <= i < j < |soft| ==> soft[i] <= soft[j])
      && (forall i :: 0 <= i < |soft| ==> WcnfFile(ks)[i] == SoftLine(soft[i]))
      && (forall i :: 0 <= i < |HardClauses(ks)| ==> WcnfFile(ks)[|soft| + i] == HardLine(HardClauses(ks)[i]))
  {
    StableSortPermutation(CardLits(ks), x => x);
    StableSortSorted(CardLits(ks), x => x);
  }
}
