/**
 * The evaluation arithmetic of evaluate.py: Jaccard similarity of code sets and the per-pair
 * comparison of a prediction file with its reference output file.
 */
module Evaluate {

  import opened Wrappers
  import opened Schemas
  import opened Validator

  /** `compute_jaccard_similarity(set1, set2)`, with exact division. */
  function Jaccard(set1: set<string>, set2: set<string>): real
  {
    if set1 == {} && set2 == {} then 1.0
    else
      var intersection := |set1 * set2|;
      var union := |set1 + set2|;
      if union > 0 then intersection as real / union as real else 0.0
  }

  lemma SubsetCard(a: set<string>, b: set<string>)
    requires a <= b
    ensures |a| <= |b|
  {
    assert b == a + (b - a);
  }

  /** The `else 0.0` branch is dead: two sets that are not both empty have a non-empty union. */
  lemma JaccardElseUnreachable(set1: set<string>, set2: set<string>)
    requires set1 != {} || set2 != {}
    ensures |set1 + set2| > 0
  {
    if set1 != {} {
      var x :| x in set1;
      SubsetCard({x}, set1 + set2);
    } else {
      var x :| x in set2;
      SubsetCard({x}, set1 + set2);
    }
  }

  lemma RatioBounds(a: nat, b: nat)
    requires 0 < b && a <= b
    ensures 0.0 <= a as real / b as real <= 1.0
  {
    var q := a as real / b as real;
    assert q * b as real == a as real;
  }

  /** The similarity lies in [0, 1]. */
  lemma JaccardBounds(set1: set<string>, set2: set<string>)
    ensures 0.0 <= Jaccard(set1, set2) <= 1.0
  {
    if set1 != {} || set2 != {} {
      JaccardElseUnreachable(set1, set2);
      SubsetCard(set1 * set2, set1 + set2);
      RatioBounds(|set1 * set2|, |set1 + set2|);
    }
  }

  /** The similarity does not depend on the order of its arguments. */
  lemma JaccardSymmetric(set1: set<string>, set2: set<string>)
    ensures Jaccard(set1, set2) == Jaccard(set2, set1)
  {
    assert set1 * set2 == set2 * set1 && set1 + set2 == set2 + set1;
  }

  /** Identical sets score 1.0, the empty pair included. */
  lemma JaccardSelf(set1: set<string>)
    ensures Jaccard(set1, set1) == 1.0
  {
    if set1 != {} {
      assert set1 * set1 == set1 && set1 + set1 == set1;
      JaccardElseUnreachable(set1, set1);
      var n := |set1| as real;
      assert n / n == 1.0;
    }
  }

  /** Disjoint non-empty sets score 0.0. */
  lemma JaccardDisjoint(set1: set<string>, set2: set<string>)
    requires set1 != {} && set2 != {} && set1 * set2 == {}
    ensures Jaccard(set1, set2) == 0.0
  {
    JaccardElseUnreachable(set1, set2);
    var n := |set1 + set2| as real;
    assert 0 as real / n == 0.0;
  }

  /** `set([x["code"] for x in data])`. */
  function CodeSet(entries: seq<CodeEntry>): (s: set<string>)
    ensures forall c :: c in s <==> exists i :: 0 <= i < |entries| && entries[i].code == c
  {
    set i | 0 <= i < |entries| :: entries[i].code
  }

  /** `{code for code in codes if not validator.check_code_validity(code)}`. */
  function InvalidCodes(v: Validator, codes: set<string>): set<string>
  {
    set c | c in codes && !CheckCodeValidity(v, c)
  }

  /** `{code for code in codes - invalid if not validator.check_code_billable(code)}`. */
  function NonBillableCodes(v: Validator, codes: set<string>, invalid: set<string>): set<string>
    requires invalid == InvalidCodes(v, codes)
  {
    set c | c in codes - invalid && !CheckCodeBillable(v, c).value
  }

  /** `[x for x in data if x["code"] in codes]`: order and repetitions kept. */
  function Details(entries: seq<CodeEntry>, codes: set<string>): seq<CodeEntry>
  {
    if entries == [] then []
    else (if entries[0].code in codes then [entries[0]] else []) + Details(entries[1..], codes)
  }

  /** The record `analyze_predictions` appends for one (prediction, reference output) pair. */
  datatype PairAnalysis = PairAnalysis(
    filePair: string,
    noteText: string,
    jaccardSimilarity: real,
    commonCodes: set<string>,
    codesInPredOnly: seq<CodeEntry>,
    codesInOutputOnly: seq<CodeEntry>,
    invalidPred: set<string>,
    invalidOutput: set<string>,
    nonBillablePred: set<string>,
    nonBillableOutput: set<string>)

  function AnalyzePair(v: Validator, filePair: string, noteText: string, predData: seq<CodeEntry>, outputData: seq<CodeEntry>): PairAnalysis
  {
    var predCodes := CodeSet(predData);
    var outputCodes := CodeSet(outputData);
    var predOnly := predCodes - outputCodes;
    var outputOnly := outputCodes - predCodes;
    var commonCodes := predCodes * outputCodes;
    var invalidPred := InvalidCodes(v, predCodes);
    var invalidOutput := InvalidCodes(v, outputCodes);
    PairAnalysis(
      filePair, noteText, Jaccard(predCodes, outputCodes), commonCodes,
      Details(predData, predOnly), Details(outputData, outputOnly),
      invalidPred, invalidOutput,
      NonBillableCodes(v, predCodes, invalidPred), NonBillableCodes(v, outputCodes, invalidOutput))
  }

  /** pred-only, output-only and common codes split the union of the two code sets into three disjoint parts. */
  lemma CodeSplit(predCodes: set<string>, outputCodes: set<string>)
    ensures var predOnly, outputOnly, common := predCodes - outputCodes, outputCodes - predCodes, predCodes * outputCodes;
      && predOnly * outputOnly == {} && predOnly * common == {} && outputOnly * common == {}
      && predOnly + outputOnly + common == predCodes + outputCodes
  {
  }

  /**
   * The invalid codes are those the vocabulary lacks; the non-billable ones are vocabulary codes
   * whose flag is false, so the two never meet.
   */
  lemma InvalidAndNonBillable(v: Validator, codes: set<string>)
    ensures InvalidCodes(v, codes) == codes - v.codes.Keys
    ensures var nb := NonBillableCodes(v, codes, InvalidCodes(v, codes));
      && nb * InvalidCodes(v, codes) == {}
      && forall c :: c in nb <==> c in codes && c in v.codes && !v.codes[c].isBillable
  {
  }

  /** The detail lists hold exactly the entries whose code is in the given set, in original order. */
  lemma {:induction false} DetailsExact(entries: seq<CodeEntry>, codes: set<string>)
    ensures forall x :: x in Details(entries, codes) <==> x in entries && x.code in codes
    ensures |Details(entries, codes)| <= |entries|
  {
    if entries != [] {
      DetailsExact(entries[1..], codes);
      assert entries == [entries[0]] + entries[1..];
    }
  }

  lemma {:induction false} DetailsAppend(xs: seq<CodeEntry>, ys: seq<CodeEntry>, codes: set<string>)
    ensures Details(xs + ys, codes) == Details(xs, codes) + Details(ys, codes)
  {
    if xs != [] {
      assert (xs + ys)[1..] == xs[1..] + ys;
      DetailsAppend(xs[1..], ys, codes);
    } else {
      assert xs + ys == ys;
    }
  }

  /**
   * What one pair's record holds: a similarity in [0, 1], the pred-only and output-only detail
   * lists made of exactly the entries whose code the other side lacks, the common codes, and
   * invalid and non-billable sets that never meet.
   */
  lemma AnalyzePairFacts(v: Validator, filePair: string, noteText: string, predData: seq<CodeEntry>, outputData: seq<CodeEntry>)
    ensures var a := AnalyzePair(v, filePair, noteText, predData, outputData);
      && 0.0 <= a.jaccardSimilarity <= 1.0
      && (forall x :: x in a.codesInPredOnly <==> x in predData && x.code !in CodeSet(outputData))
      && (forall x :: x in a.codesInOutputOnly <==> x in outputData && x.code !in CodeSet(predData))
      && (forall c :: c in a.commonCodes <==> c in CodeSet(predData) && c in CodeSet(outputData))
      && a.invalidPred == CodeSet(predData) - v.codes.Keys
      && a.invalidOutput == CodeSet(outputData) - v.codes.Keys
      && a.invalidPred * a.nonBillablePred == {} && a.invalidOutput * a.nonBillableOutput == {}
  {
    var predCodes, outputCodes := CodeSet(predData), CodeSet(outputData);
    JaccardBounds(predCodes, outputCodes);
    DetailsExact(predData, predCodes - outputCodes);
    DetailsExact(outputData, outputCodes - predCodes);
    InvalidAndNonBillable(v, predCodes);
    InvalidAndNonBillable(v, outputCodes);
    forall x | x in predData
      ensures x.code in predCodes
    {
      var i :| 0 <= i < |predData| && predData[i] == x;
    }
    forall x | x in outputData
      ensures x.code in outputCodes
    {
      var i :| 0 <= i < |outputData| && outputData[i] == x;
    }
  }

  /**
   * One prediction file with what was found beside it: the reference output and the note, each
   * `None` when its file is missing.
   */
  datatype PredictionFile = PredictionFile(
    predName: string,
    outputName: string,
    noteText: Option<string>,
    predData: seq<CodeEntry>,
    outputData: Option<seq<CodeEntry>>)

  predicate Complete(f: PredictionFile)
  {
    f.noteText.Some? && f.outputData.Some?
  }

  function Analyze(v: Validator, f: PredictionFile): PairAnalysis
    requires Complete(f)
  {
    AnalyzePair(v, f.predName + " - " + f.outputName, f.noteText.value, f.predData, f.outputData.value)
  }

  /** The analyses of the complete files, in file order; incomplete files are skipped. */
  function AnalyzeAll(v: Validator, files: seq<PredictionFile>): seq<PairAnalysis>
  {
    if files == [] then []
    else
      var last := files[|files| - 1];
      AnalyzeAll(v, files[..|files| - 1]) + (if Complete(last) then [Analyze(v, last)] else [])
  }

  /** `analyze_predictions(validator)` over the files found, in sorted order. */
  method AnalyzePredictions(v: Validator, predFiles: seq<PredictionFile>) returns (results: seq<PairAnalysis>)
    ensures results == AnalyzeAll(v, predFiles)
  {
    results := [];
    var i := 0;
    while i < |predFiles|
      invariant 0 <= i <= |predFiles|
      invariant results == AnalyzeAll(v, predFiles[..i])
    {
      var predFile := predFiles[i];
      assert predFiles[..i + 1][..i] == predFiles[..i];
      if Complete(predFile) {
        results := results + [Analyze(v, predFile)];
      }
      i := i + 1;
    }
    assert predFiles[..i] == predFiles;
  }

  /**
   * There is one result per complete file and none for a file missing its note or its reference
   * output, so a list of complete files gets one result each.
   */
  lemma {:induction false} AnalyzeAllCount(v: Validator, files: seq<PredictionFile>)
    ensures |AnalyzeAll(v, files)| == |set i | 0 <= i < |files| && Complete(files[i])|
    ensures |AnalyzeAll(v, files)| <= |files|
    ensures (forall i :: 0 <= i < |files| ==> Complete(files[i])) ==> |AnalyzeAll(v, files)| == |files|
  {
    if files != [] {
      var n := |files| - 1;
      var front := files[..n];
      AnalyzeAllCount(v, front);
      assert forall i :: 0 <= i < n ==> front[i] == files[i];
      var all := set i | 0 <= i < |files| && Complete(files[i]);
      var before := set i | 0 <= i < n && Complete(front[i]);
      if Complete(files[n]) {
        assert all == before + {n};
      } else {
        assert all == before;
      }
    }
  }

  /** A result is in the list exactly when it is the analysis of some complete file. */
  lemma {:induction false} AnalyzeAllMember(v: Validator, files: seq<PredictionFile>, r: PairAnalysis)
    ensures r in AnalyzeAll(v, files) <==> exists i :: 0 <= i < |files| && Complete(files[i]) && r == Analyze(v, files[i])
  {
    if r in AnalyzeAll(v, files) {
      var i := AnalyzeAllSound(v, files, r);
    }
    if exists i :: 0 <= i < |files| && Complete(files[i]) && r == Analyze(v, files[i]) {
      var i :| 0 <= i < |files| && Complete(files[i]) && r == Analyze(v, files[i]);
      AnalyzeAllComplete(v, files, i);
    }
  }

  /** Every analysis in the result comes from some complete file. */
  lemma {:induction false} AnalyzeAllSound(v: Validator, files: seq<PredictionFile>, r: PairAnalysis) returns (i: nat)
    requires r in AnalyzeAll(v, files)
    ensures i < |files| && Complete(files[i]) && r == Analyze(v, files[i])
  {
    var n := |files| - 1;
    var front := files[..n];
    if r in AnalyzeAll(v, front) {
      i := AnalyzeAllSound(v, front, r);
      assert files[i] == front[i];
    } else {
      i := n;
    }
  }

  /** The analysis of every complete file is in the result. */
  lemma {:induction false} AnalyzeAllComplete(v: Validator, files: seq<PredictionFile>, i: nat)
    requires i < |files| && Complete(files[i])
    ensures Analyze(v, files[i]) in AnalyzeAll(v, files)
  {
    var n := |files| - 1;
    var front := files[..n];
    if i < n {
      assert front[i] == files[i];
      AnalyzeAllComplete(v, front, i);
    }
  }
}
