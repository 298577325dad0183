/**
 * The deterministic bookkeeping of the agent pipeline (src/agents.py). The completion service
 * and the retriever are opaque functions carried by the agents; every stage validates what the
 * completion service returns against the reference validator before handing it on.
 */
module Agents {

  import opened Wrappers
  import opened Schemas
  import opened PyStrings
  import opened Validator
  import Utils

  /** What a stage sends to the completion service besides its system instructions. */
  datatype Prompt =
    | CoderPrompt(note: string)
    | ReviewerPrompt(note: string, coderCodes: seq<CodeEntry>, feedback: string, related: seq<VocabEntry>)
    | JudgePrompt(note: string, assignedCodes: seq<CodeEntry>)
    | AdjustorPrompt(
        note: string,
        reviewerCodes: seq<CodeEntry>,
        physicianCodes: seq<CodeEntry>,
        patientCodes: seq<CodeEntry>,
        feedback: string,
        related: seq<VocabEntry>)

  /**
   * An agent: its role text, the completion service it calls (system instructions and prompt
   * to structured output, or a failure) and its reference validator.
   */
  datatype Agent = Agent(
    role: string,
    responsibilities: string,
    complete: (string, Prompt) -> Result<seq<CodeEntry>>,
    validator: Validator)

  /** A reviewer or adjustor: an agent with a retriever `(query, k) -> documents` and a default `k`. */
  datatype RetrievingAgent = RetrievingAgent(
    base: Agent,
    retrieve: (string, int) -> seq<VocabEntry>,
    numCandidates: int)

  function SystemInstructions(a: Agent): string
  {
    "Role: " + a.role + "\nResponsibilities: " + a.responsibilities
  }

  // ---------------------------------------------------------------------------------------
  // validate_output

  /** One entry after validation: dropped if its code is unknown, else with the vocabulary's description. */
  function ValidatedEntry(v: Validator, e: CodeEntry): seq<CodeEntry>
  {
    if CheckCodeValidity(v, e.code) then [e.(description := GetDescription(v, e.code).value)] else []
  }

  /** What `validate_output` returns for `entries`. */
  function Validated(v: Validator, entries: seq<CodeEntry>): seq<CodeEntry>
  {
    if entries == [] then [] else ValidatedEntry(v, entries[0]) + Validated(v, entries[1..])
  }

  /** The description of a known code, as the vocabulary states it. */
  ghost predicate Canonical(v: Validator, e: CodeEntry)
  {
    e.code in v.codes && e.description == v.codes[e.code].description
  }

  /** `Agent.validate_output`: keeps the entries with a known code, overwriting their description. */
  method ValidateOutput(a: Agent, output: seq<CodeEntry>) returns (validated: seq<CodeEntry>)
    ensures validated == Validated(a.validator, output)
  {
    validated := [];
    var i := 0;
    while i < |output|
      invariant 0 <= i <= |output|
      invariant validated == Validated(a.validator, output[..i])
    {
      var entry := output[i];
      ValidatedAppend(a.validator, output[..i], [entry]);
      assert output[..i + 1] == output[..i] + [entry];
      if CheckCodeValidity(a.validator, entry.code) {
        var newDesc := GetDescription(a.validator, entry.code).value;
        validated := validated + [entry.(description := newDesc)];
      }
      i := i + 1;
    }
    assert output[..i] == output;
  }

  /** Validation works entry by entry: it distributes over concatenation, so order is kept. */
  lemma {:induction false} ValidatedAppend(v: Validator, xs: seq<CodeEntry>, ys: seq<CodeEntry>)
    ensures Validated(v, xs + ys) == Validated(v, xs) + Validated(v, ys)
  {
    if xs != [] {
      assert (xs + ys)[1..] == xs[1..] + ys;
      ValidatedAppend(v, xs[1..], ys);
    } else {
      assert xs + ys == ys;
    }
  }

  /**
   * Every kept entry has a known code and the vocabulary's description, and is an input entry
   * with only its description replaced; billability is not consulted.
   */
  lemma {:induction false} ValidatedSound(v: Validator, entries: seq<CodeEntry>)
    ensures |Validated(v, entries)| <= |entries|
    ensures forall e :: e in Validated(v, entries) ==>
      && Canonical(v, e)
      && exists i :: 0 <= i < |entries| && e == entries[i].(description := e.description)
  {
    if entries != [] {
      ValidatedSound(v, entries[1..]);
      forall e | e in Validated(v, entries)
        ensures Canonical(v, e) && exists i :: 0 <= i < |entries| && e == entries[i].(description := e.description)
      {
        if e in ValidatedEntry(v, entries[0]) {
          assert e == entries[0].(description := e.description);
        } else {
          var i :| 0 <= i < |entries[1..]| && e == entries[1..][i].(description := e.description);
          assert e == entries[i + 1].(description := e.description);
        }
      }
    }
  }

  /** Every input entry with a known code survives, carrying the vocabulary's description. */
  lemma {:induction false} ValidatedComplete(v: Validator, entries: seq<CodeEntry>, i: nat)
    requires i < |entries| && CheckCodeValidity(v, entries[i].code)
    ensures entries[i].(description := v.codes[entries[i].code].description) in Validated(v, entries)
  {
    if i > 0 {
      ValidatedComplete(v, entries[1..], i - 1);
    }
  }

  /** Validating an already validated list changes nothing. */
  lemma {:induction false} ValidatedIdempotent(v: Validator, entries: seq<CodeEntry>)
    ensures Validated(v, Validated(v, entries)) == Validated(v, entries)
  {
    if entries != [] {
      ValidatedIdempotent(v, entries[1..]);
      ValidatedAppend(v, ValidatedEntry(v, entries[0]), Validated(v, entries[1..]));
      if CheckCodeValidity(v, entries[0].code) {
        var e := ValidatedEntry(v, entries[0]);
        assert Validated(v, e) == ValidatedEntry(v, e[0]) + Validated(v, []);
      }
    }
  }

  // ---------------------------------------------------------------------------------------
  // code_feedback

  /** Where `code_feedback` files a code; billability is asked only of a valid code. */
  datatype Kind = InvalidCode | NotBillableCode | ValidBillableCode

  function KindOf(v: Validator, code: string): Kind
  {
    if !CheckCodeValidity(v, code) then InvalidCode
    else if !CheckCodeBillable(v, code).value then NotBillableCode
    else ValidBillableCode
  }

  /** The three lists of `code_feedback`'s dictionary; `valid` holds the full records. */
  datatype Classified = Classified(invalid: seq<string>, notBillable: seq<string>, valid: seq<VocabEntry>)

  function File(v: Validator, p: Classified, code: string): Classified
  {
    match KindOf(v, code)
    case InvalidCode => p.(invalid := p.invalid + [code])
    case NotBillableCode => p.(notBillable := p.notBillable + [code])
    case ValidBillableCode => p.(valid := p.valid + [GetAllData(v, code).value])
  }

  /** The lists after filing every code in turn. */
  function Classify(v: Validator, codes: seq<string>): Classified
  {
    if codes == [] then Classified([], [], [])
    else File(v, Classify(v, codes[..|codes| - 1]), codes[|codes| - 1])
  }

  /** The codes of `codes` of kind `k`, in order and with repetitions. */
  function OfKind(v: Validator, codes: seq<string>, k: Kind): seq<string>
  {
    if codes == [] then []
    else OfKind(v, codes[..|codes| - 1], k) + (if KindOf(v, codes[|codes| - 1]) == k then [codes[|codes| - 1]] else [])
  }

  function EntryCodes(entries: seq<VocabEntry>): (r: seq<string>)
    ensures |r| == |entries| && forall i :: 0 <= i < |entries| ==> r[i] == entries[i].code
  {
    seq(|entries|, i requires 0 <= i < |entries| => entries[i].code)
  }

  /**
   * Each list of `code_feedback` holds exactly the codes of one kind, in input order with
   * repetitions, so every code lands in exactly one list; a valid and billable code is
   * represented by the validator's full record for it.
   */
  lemma {:induction false} ClassifyByKind(v: Validator, codes: seq<string>)
    requires WellKeyed(v)
    ensures Classify(v, codes).invalid == OfKind(v, codes, InvalidCode)
    ensures Classify(v, codes).notBillable == OfKind(v, codes, NotBillableCode)
    ensures EntryCodes(Classify(v, codes).valid) == OfKind(v, codes, ValidBillableCode)
    ensures forall e :: e in Classify(v, codes).valid ==> e.code in v.codes && v.codes[e.code] == e
  {
    if codes != [] {
      ClassifyByKind(v, codes[..|codes| - 1]);
    }
  }

  /** The three lists together are as long as the input. */
  lemma {:induction false} ClassifyCount(v: Validator, codes: seq<string>)
    ensures var p := Classify(v, codes); |p.invalid| + |p.notBillable| + |p.valid| == |codes|
  {
    if codes != [] {
      ClassifyCount(v, codes[..|codes| - 1]);
    }
  }

  /** Python's `repr` of a list of strings: `['A01', 'B02']`. */
  function PyListRepr(xs: seq<string>): string
  {
    "[" + PyItems(xs) + "]"
  }

  function PyItems(xs: seq<string>): string
  {
    if xs == [] then ""
    else if |xs| == 1 then "'" + xs[0] + "'"
    else "'" + xs[0] + "', " + PyItems(xs[1..])
  }

  /** `json.dumps` of a stored vocabulary record. */
  function JsonDumps(e: VocabEntry): string
  {
    "{\"code\": \"" + e.code + "\", \"description\": \"" + e.description
      + "\", \"is_billable\": " + (if e.isBillable then "true" else "false") + "}"
  }

  /** `"\n".join(...)` of the JSON texts of the records. */
  function JoinedJson(entries: seq<VocabEntry>): string
  {
    if entries == [] then ""
    else if |entries| == 1 then JsonDumps(entries[0])
    else JsonDumps(entries[0]) + "\n" + JoinedJson(entries[1..])
  }

  const InvalidHeader := "The following are not valid ICD-10 codes: "
  const NotBillableHeader := "The following ICD-10 codes are valid but not billable: "
  const ValidHeader := "Definitions of remaining ICD-10 codes that are both valid and billable:\n"

  function InvalidSection(p: Classified): string
  {
    if p.invalid != [] then InvalidHeader + PyListRepr(p.invalid) + "\n\n" else ""
  }

  function NotBillableSection(p: Classified): string
  {
    if p.notBillable != [] then NotBillableHeader + PyListRepr(p.notBillable) + "\n\n" else ""
  }

  function ValidSection(p: Classified): string
  {
    if p.valid != [] then ValidHeader + JoinedJson(p.valid) + "\n" else ""
  }

  /** The feedback text: the invalid, not-billable and valid sections, in that order. */
  function RenderFeedback(p: Classified): string
  {
    InvalidSection(p) + NotBillableSection(p) + ValidSection(p)
  }

  /** `ReviewerOrAdjustor.code_feedback`: files every code, then renders the non-empty sections. */
  method CodeFeedback(a: Agent, codes: seq<string>) returns (feedback: string)
    ensures feedback == RenderFeedback(Classify(a.validator, codes))
  {
    var output := Classified([], [], []);
    var i := 0;
    while i < |codes|
      invariant 0 <= i <= |codes|
      invariant output == Classify(a.validator, codes[..i])
    {
      var code := codes[i];
      assert codes[..i + 1][..i] == codes[..i];
      assert Classify(a.validator, codes[..i + 1]) == File(a.validator, output, code);
      if !CheckCodeValidity(a.validator, code) {
        output := output.(invalid := output.invalid + [code]);
      } else if !CheckCodeBillable(a.validator, code).value {
        output := output.(notBillable := output.notBillable + [code]);
      } else {
        output := output.(valid := output.valid + [GetAllData(a.validator, code).value]);
      }
      i := i + 1;
    }
    assert codes[..i] == codes;
    feedback := "";
    if output.invalid != [] {
      feedback := feedback + (InvalidHeader + PyListRepr(output.invalid) + "\n\n");
    }
    assert feedback == InvalidSection(output);
    if output.notBillable != [] {
      feedback := feedback + (NotBillableHeader + PyListRepr(output.notBillable) + "\n\n");
    }
    assert feedback == InvalidSection(output) + NotBillableSection(output);
    if output.valid != [] {
      feedback := feedback + (ValidHeader + JoinedJson(output.valid) + "\n");
    }
  }

  /** A section is present exactly when its list is non-empty. */
  lemma SectionsPresentIff(p: Classified)
    ensures InvalidSection(p) != "" <==> p.invalid != []
    ensures NotBillableSection(p) != "" <==> p.notBillable != []
    ensures ValidSection(p) != "" <==> p.valid != []
  {
  }

  /** The feedback is empty exactly when there are no codes. */
  lemma FeedbackEmptyIff(v: Validator, codes: seq<string>)
    ensures RenderFeedback(Classify(v, codes)) == "" <==> codes == []
  {
    ClassifyCount(v, codes);
    SectionsPresentIff(Classify(v, codes));
  }

  lemma {:induction false} PyItemsMention(xs: seq<string>, i: nat)
    requires i < |xs|
    ensures Contains(PyItems(xs), xs[i])
  {
    if i == 0 {
      ContainsSelf(xs[0]);
      ContainsConcat("'", xs[0], xs[0]);
      if |xs| == 1 {
        ContainsConcat("'" + xs[0], "'", xs[0]);
      } else {
        ContainsConcat("'" + xs[0], "', " + PyItems(xs[1..]), xs[0]);
        assert "'" + xs[0] + "', " + PyItems(xs[1..]) == ("'" + xs[0]) + ("', " + PyItems(xs[1..]));
      }
    } else {
      PyItemsMention(xs[1..], i - 1);
      ContainsConcat("'" + xs[0] + "', ", PyItems(xs[1..]), xs[i]);
    }
  }

  lemma PyListReprMentions(xs: seq<string>, i: nat)
    requires i < |xs|
    ensures Contains(PyListRepr(xs), xs[i])
  {
    PyItemsMention(xs, i);
    ContainsConcat("[", PyItems(xs), xs[i]);
    ContainsConcat("[" + PyItems(xs), "]", xs[i]);
  }

  lemma JsonMentionsCode(e: VocabEntry)
    ensures Contains(JsonDumps(e), e.code)
  {
    var pre := "{\"code\": \"";
    assert OccursAt(JsonDumps(e), e.code, |pre|) by {
      assert JsonDumps(e)[..|pre| + |e.code|] == pre + e.code;
    }
  }

  lemma {:induction false} JoinedJsonMentions(entries: seq<VocabEntry>, i: nat)
    requires i < |entries|
    ensures Contains(JoinedJson(entries), entries[i].code)
  {
    if i == 0 {
      JsonMentionsCode(entries[0]);
      if |entries| > 1 {
        ContainsConcat(JsonDumps(entries[0]), "\n" + JoinedJson(entries[1..]), entries[0].code);
        assert JoinedJson(entries) == JsonDumps(entries[0]) + ("\n" + JoinedJson(entries[1..]));
      }
    } else {
      assert entries[1..][i - 1] == entries[i];
      JoinedJsonMentions(entries[1..], i - 1);
      ContainsConcat(JsonDumps(entries[0]) + "\n", JoinedJson(entries[1..]), entries[i].code);
      assert JoinedJson(entries) == (JsonDumps(entries[0]) + "\n") + JoinedJson(entries[1..]);
    }
  }

  /** Every input code appears verbatim in the feedback text, whichever section holds it. */
  lemma FeedbackMentionsEveryCode(v: Validator, codes: seq<string>, i: nat)
    requires WellKeyed(v)
    requires i < |codes|
    ensures Contains(RenderFeedback(Classify(v, codes)), codes[i])
  {
    var p := Classify(v, codes);
    var c := codes[i];
    ClassifyByKind(v, codes);
    OfKindMember(v, codes, i);
    var sections := InvalidSection(p) + NotBillableSection(p);
    match KindOf(v, c)
    case InvalidCode =>
      var j :| 0 <= j < |p.invalid| && p.invalid[j] == c;
      PyListReprMentions(p.invalid, j);
      ContainsConcat(InvalidHeader, PyListRepr(p.invalid), c);
      ContainsConcat(InvalidHeader + PyListRepr(p.invalid), "\n\n", c);
      ContainsConcat(InvalidSection(p), NotBillableSection(p), c);
      ContainsConcat(sections, ValidSection(p), c);
    case NotBillableCode =>
      var j :| 0 <= j < |p.notBillable| && p.notBillable[j] == c;
      PyListReprMentions(p.notBillable, j);
      ContainsConcat(NotBillableHeader, PyListRepr(p.notBillable), c);
      ContainsConcat(NotBillableHeader + PyListRepr(p.notBillable), "\n\n", c);
      ContainsConcat(InvalidSection(p), NotBillableSection(p), c);
      ContainsConcat(sections, ValidSection(p), c);
    case ValidBillableCode =>
      var codesOfValid := EntryCodes(p.valid);
      var j :| 0 <= j < |codesOfValid| && codesOfValid[j] == c;
      JoinedJsonMentions(p.valid, j);
      ContainsConcat(ValidHeader, JoinedJson(p.valid), c);
      ContainsConcat(ValidHeader + JoinedJson(p.valid), "\n", c);
      ContainsConcat(sections, ValidSection(p), c);
  }

  /** A code of kind `k` is in the list of kind `k`. */
  lemma {:induction false} OfKindMember(v: Validator, codes: seq<string>, i: nat)
    requires i < |codes|
    ensures codes[i] in OfKind(v, codes, KindOf(v, codes[i]))
  {
    if i < |codes| - 1 {
      OfKindMember(v, codes[..|codes| - 1], i);
    }
  }

  // ---------------------------------------------------------------------------------------
  // retrieve_codes

  /** `if not k: k = self.num_candidates`: None and 0 fall back to the agent's default. */
  function EffectiveK(k: Option<int>, numCandidates: int): int
  {
    if k == None || k == Some(0) then numCandidates else k.value
  }

  /** The retriever's answers for each entry's evidence, concatenated in entry order. */
  function RetrieveAll(retrieve: (string, int) -> seq<VocabEntry>, entries: seq<CodeEntry>, k: int): seq<VocabEntry>
  {
    if entries == [] then [] else retrieve(entries[0].evidence, k) + RetrieveAll(retrieve, entries[1..], k)
  }

  /** `ReviewerOrAdjustor.retrieve_codes(code_list, k)`. */
  function RetrieveCodes(a: RetrievingAgent, entries: seq<CodeEntry>, k: Option<int>): seq<VocabEntry>
  {
    RetrieveAll(a.retrieve, entries, EffectiveK(k, a.numCandidates))
  }

  /** Retrieval over a concatenation is the concatenation of the retrievals. */
  lemma {:induction false} RetrieveAllAppend(retrieve: (string, int) -> seq<VocabEntry>, xs: seq<CodeEntry>, ys: seq<CodeEntry>, k: int)
    ensures RetrieveAll(retrieve, xs + ys, k) == RetrieveAll(retrieve, xs, k) + RetrieveAll(retrieve, ys, k)
  {
    if xs != [] {
      assert (xs + ys)[1..] == xs[1..] + ys;
      RetrieveAllAppend(retrieve, xs[1..], ys, k);
    } else {
      assert xs + ys == ys;
    }
  }

  /** A document is retrieved exactly when the query of some entry's evidence returns it. */
  lemma {:induction false} RetrieveAllMember(retrieve: (string, int) -> seq<VocabEntry>, entries: seq<CodeEntry>, k: int, d: VocabEntry)
    ensures d in RetrieveAll(retrieve, entries, k) <==> exists i :: 0 <= i < |entries| && d in retrieve(entries[i].evidence, k)
  {
    if entries != [] {
      RetrieveAllMember(retrieve, entries[1..], k, d);
      if exists i :: 0 <= i < |entries| && d in retrieve(entries[i].evidence, k) {
        var i :| 0 <= i < |entries| && d in retrieve(entries[i].evidence, k);
        if i > 0 {
          assert entries[1..][i - 1] == entries[i];
        }
      }
    }
  }

  /** `k=None` and `k=0` both retrieve with `num_candidates`; any other `k` is used as given. */
  lemma RetrieveCodesDefaultK(a: RetrievingAgent, entries: seq<CodeEntry>, k: int)
    ensures RetrieveCodes(a, entries, None) == RetrieveCodes(a, entries, Some(0))
                                          == RetrieveAll(a.retrieve, entries, a.numCandidates)
    ensures k != 0 ==> RetrieveCodes(a, entries, Some(k)) == RetrieveAll(a.retrieve, entries, k)
  {
  }

  // ---------------------------------------------------------------------------------------
  // The stages

  /** A completion's codes after `validate_output`; a failed completion aborts the stage. */
  function AfterValidation(v: Validator, completion: Result<seq<CodeEntry>>): Result<seq<CodeEntry>>
  {
    match completion
    case Ok(codes) => Ok(Validated(v, codes))
    case Raised(e) => Raised(e)
  }

  method ValidateCompletion(a: Agent, completion: Result<seq<CodeEntry>>) returns (r: Result<seq<CodeEntry>>)
    ensures r == AfterValidation(a.validator, completion)
  {
    match completion
    case Raised(e) =>
      r := Raised(e);
    case Ok(codes) =>
      var validated := ValidateOutput(a, codes);
      r := Ok(validated);
  }

  function CoderStage(a: Agent, note: string): Result<seq<CodeEntry>>
  {
    AfterValidation(a.validator, a.complete(SystemInstructions(a), CoderPrompt(note)))
  }

  function ReviewerStage(a: RetrievingAgent, note: string, coderCodes: seq<CodeEntry>, k: int): Result<seq<CodeEntry>>
  {
    var feedback := RenderFeedback(Classify(a.base.validator, Utils.GetCodes(coderCodes)));
    var related := RetrieveCodes(a, coderCodes, Some(k));
    AfterValidation(a.base.validator,
      a.base.complete(SystemInstructions(a.base), ReviewerPrompt(note, coderCodes, feedback, related)))
  }

  function JudgeStage(a: Agent, note: string, reviewerCodes: seq<CodeEntry>): Result<seq<CodeEntry>>
  {
    AfterValidation(a.validator, a.complete(SystemInstructions(a), JudgePrompt(note, reviewerCodes)))
  }

  /** The adjustor's stage for one listing `unique` of the pooled code set. */
  function AdjustorStage(
    a: RetrievingAgent, note: string,
    reviewerCodes: seq<CodeEntry>, physicianCodes: seq<CodeEntry>, patientCodes: seq<CodeEntry>,
    unique: seq<string>): Result<seq<CodeEntry>>
  {
    var feedback := RenderFeedback(Classify(a.base.validator, unique));
    var related := RetrieveCodes(a, reviewerCodes + physicianCodes + patientCodes, None);
    AfterValidation(a.base.validator,
      a.base.complete(SystemInstructions(a.base),
        AdjustorPrompt(note, reviewerCodes, physicianCodes, patientCodes, feedback, related)))
  }

  function PooledCodes(reviewerCodes: seq<CodeEntry>, physicianCodes: seq<CodeEntry>, patientCodes: seq<CodeEntry>): set<string>
  {
    set e | e in reviewerCodes + physicianCodes + patientCodes :: e.code
  }

  /** `xs` lists the members of `s`, each once, in some order (`list(s)` of a Python set). */
  ghost predicate IsListing(xs: seq<string>, s: set<string>)
  {
    && (forall x :: x in xs <==> x in s)
    && forall i, j :: 0 <= i < j < |xs| ==> xs[i] != xs[j]
  }

  /** The adjustor may list the pooled set in any order; `r` is its result for one such order. */
  ghost predicate IsAdjustorResult(
    a: RetrievingAgent, note: string,
    reviewerCodes: seq<CodeEntry>, physicianCodes: seq<CodeEntry>, patientCodes: seq<CodeEntry>,
    r: Result<seq<CodeEntry>>)
  {
    exists unique :: IsListing(unique, PooledCodes(reviewerCodes, physicianCodes, patientCodes))
      && r == AdjustorStage(a, note, reviewerCodes, physicianCodes, patientCodes, unique)
  }

  /** `list(set(...))`: the set's members in an order the model leaves open. */
  method ListFromSet(s: set<string>) returns (xs: seq<string>)
    ensures IsListing(xs, s)
  {
    xs := [];
    var rest := s;
    while rest != {}
      invariant forall x :: x in s <==> x in rest || x in xs
      invariant forall x :: x in rest ==> x !in xs
      invariant forall i, j :: 0 <= i < j < |xs| ==> xs[i] != xs[j]
      decreases rest
    {
      var x :| x in rest;
      xs := xs + [x];
      rest := rest - {x};
    }
  }

  /** `Coder.process(note)`. */
  method CoderProcess(a: Agent, note: string) returns (r: Result<seq<CodeEntry>>)
    ensures r == CoderStage(a, note)
  {
    var structuredOutput := a.complete(SystemInstructions(a), CoderPrompt(note));
    r := ValidateCompletion(a, structuredOutput);
  }

  /** `Reviewer.process(data, k)`: feedback over the coder's codes and retrieval with `k`. */
  method ReviewerProcess(a: RetrievingAgent, note: string, coderCodes: seq<CodeEntry>, k: int) returns (r: Result<seq<CodeEntry>>)
    ensures r == ReviewerStage(a, note, coderCodes, k)
  {
    var codeList := Utils.GetCodes(coderCodes);
    var codeLookupFeedback := CodeFeedback(a.base, codeList);
    var relatedCodes := RetrieveCodes(a, coderCodes, Some(k));
    var structuredOutput := a.base.complete(SystemInstructions(a.base),
      ReviewerPrompt(note, coderCodes, codeLookupFeedback, relatedCodes));
    r := ValidateCompletion(a.base, structuredOutput);
  }

  /** `PatientOrPhysician.process(data)`: judges the reviewer's codes. */
  method JudgeProcess(a: Agent, note: string, reviewerCodes: seq<CodeEntry>) returns (r: Result<seq<CodeEntry>>)
    ensures r == JudgeStage(a, note, reviewerCodes)
  {
    var structuredOutput := a.complete(SystemInstructions(a), JudgePrompt(note, reviewerCodes));
    r := ValidateCompletion(a, structuredOutput);
  }

  /**
   * `Adjustor.process(data)`: pools the reviewer, physician and patient codes; feedback runs over
   * the de-duplicated code strings, retrieval over the whole pool with the default `k`. The coder's
   * output is passed in but never read.
   */
  method AdjustorProcess(
    a: RetrievingAgent, note: string, coderCodes: seq<CodeEntry>,
    reviewerCodes: seq<CodeEntry>, physicianCodes: seq<CodeEntry>, patientCodes: seq<CodeEntry>)
    returns (r: Result<seq<CodeEntry>>)
    ensures IsAdjustorResult(a, note, reviewerCodes, physicianCodes, patientCodes, r)
  {
    var allCodes := reviewerCodes + physicianCodes + patientCodes;
    var uniqueCodes := ListFromSet(set e | e in allCodes :: e.code);
    var codeLookupFeedback := CodeFeedback(a.base, uniqueCodes);
    var relatedCodes := RetrieveCodes(a, allCodes, None);
    var structuredOutput := a.base.complete(SystemInstructions(a.base),
      AdjustorPrompt(note, reviewerCodes, physicianCodes, patientCodes, codeLookupFeedback, relatedCodes));
    r := ValidateCompletion(a.base, structuredOutput);
    assert r == AdjustorStage(a, note, reviewerCodes, physicianCodes, patientCodes, uniqueCodes);
  }

  // ---------------------------------------------------------------------------------------
  // postprocess and process_note

  /** Each entry cut down to `{code, evidence, description}`. */
  function Projected(entries: seq<CodeEntry>): seq<FinalCode>
  {
    seq(|entries|, i requires 0 <= i < |entries| => FinalCode(entries[i].code, entries[i].evidence, entries[i].description))
  }

  /** `Adjustor.postprocess`: one `{code, evidence, description}` per entry, same order. */
  method Postprocess(validatedCodes: seq<CodeEntry>) returns (output: seq<FinalCode>)
    ensures output == Projected(validatedCodes)
  {
    output := [];
    var i := 0;
    while i < |validatedCodes|
      invariant 0 <= i <= |validatedCodes|
      invariant output == Projected(validatedCodes[..i])
    {
      var codeObj := validatedCodes[i];
      output := output + [FinalCode(codeObj.code, codeObj.evidence, codeObj.description)];
      i := i + 1;
    }
    assert validatedCodes[..i] == validatedCodes;
  }

  /** The five agents of a `NotesProcessor`, by constructor slot. */
  datatype NotesProcessor = NotesProcessor(
    coder: Agent,
    reviewer: RetrievingAgent,
    physician: Agent,
    patient: Agent,
    adjustor: RetrievingAgent)

  function Finalized(adjusted: Result<seq<CodeEntry>>): Result<seq<FinalCode>>
  {
    match adjusted
    case Ok(codes) => Ok(Projected(codes))
    case Raised(e) => Raised(e)
  }

  /** The `k` the reviewer always retrieves with (`Reviewer.process`'s default). */
  const ReviewerK := 10

  /**
   * The outcome of `process_note`: the stages in order, the physician and the patient both
   * judging the reviewer's output, the adjustor reconciling reviewer, physician and patient; the
   * first stage that fails aborts the run with its exception.
   */
  ghost predicate IsPipelineResult(p: NotesProcessor, note: string, r: Result<seq<FinalCode>>)
  {
    match CoderStage(p.coder, note)
    case Raised(e) => r == Raised(e)
    case Ok(coderCodes) =>
      match ReviewerStage(p.reviewer, note, coderCodes, ReviewerK)
      case Raised(e) => r == Raised(e)
      case Ok(reviewerCodes) =>
        match JudgeStage(p.physician, note, reviewerCodes)
        case Raised(e) => r == Raised(e)
        case Ok(physicianCodes) =>
          match JudgeStage(p.patient, note, reviewerCodes)
          case Raised(e) => r == Raised(e)
          case Ok(patientCodes) =>
            exists adjusted :: IsAdjustorResult(p.adjustor, note, reviewerCodes, physicianCodes, patientCodes, adjusted)
              && r == Finalized(adjusted)
  }

  /** `NotesProcessor.process_note(note)`. */
  method ProcessNote(p: NotesProcessor, note: string) returns (r: Result<seq<FinalCode>>)
    ensures IsPipelineResult(p, note, r)
  {
    var coderOutput := CoderProcess(p.coder, note);
    if coderOutput.Raised? {
      return Raised(coderOutput.error);
    }
    var reviewerOutput := ReviewerProcess(p.reviewer, note, coderOutput.value, ReviewerK);
    if reviewerOutput.Raised? {
      return Raised(reviewerOutput.error);
    }
    var physicianOutput := JudgeProcess(p.physician, note, reviewerOutput.value);
    if physicianOutput.Raised? {
      return Raised(physicianOutput.error);
    }
    var patientOutput := JudgeProcess(p.patient, note, reviewerOutput.value);
    if patientOutput.Raised? {
      return Raised(patientOutput.error);
    }
    var adjustorOutput := AdjustorProcess(p.adjustor, note, coderOutput.value,
      reviewerOutput.value, physicianOutput.value, patientOutput.value);
    if adjustorOutput.Raised? {
      return Raised(adjustorOutput.error);
    }
    var finalOutput := Postprocess(adjustorOutput.value);
    r := Ok(finalOutput);
    assert r == Finalized(adjustorOutput);
  }

  /** A successful run went through every stage; the adjustor listed the pooled codes in some order. */
  lemma PipelineStages(p: NotesProcessor, note: string, r: Result<seq<FinalCode>>)
    returns (coderCodes: seq<CodeEntry>, reviewerCodes: seq<CodeEntry>, physicianCodes: seq<CodeEntry>,
             patientCodes: seq<CodeEntry>, unique: seq<string>)
    requires IsPipelineResult(p, note, r) && r.Ok?
    ensures CoderStage(p.coder, note) == Ok(coderCodes)
    ensures ReviewerStage(p.reviewer, note, coderCodes, ReviewerK) == Ok(reviewerCodes)
    ensures JudgeStage(p.physician, note, reviewerCodes) == Ok(physicianCodes)
    ensures JudgeStage(p.patient, note, reviewerCodes) == Ok(patientCodes)
    ensures IsListing(unique, PooledCodes(reviewerCodes, physicianCodes, patientCodes))
    ensures r == Finalized(AdjustorStage(p.adjustor, note, reviewerCodes, physicianCodes, patientCodes, unique))
  {
    coderCodes := CoderStage(p.coder, note).value;
    reviewerCodes := ReviewerStage(p.reviewer, note, coderCodes, ReviewerK).value;
    physicianCodes := JudgeStage(p.physician, note, reviewerCodes).value;
    patientCodes := JudgeStage(p.patient, note, reviewerCodes).value;
    var adjusted :| IsAdjustorResult(p.adjustor, note, reviewerCodes, physicianCodes, patientCodes, adjusted)
      && r == Finalized(adjusted);
    unique :| IsListing(unique, PooledCodes(reviewerCodes, physicianCodes, patientCodes))
      && adjusted == AdjustorStage(p.adjustor, note, reviewerCodes, physicianCodes, patientCodes, unique);
  }

  /** Every code of a successful run is in the adjustor's vocabulary, with its canonical description. */
  lemma PipelineCodesCanonical(p: NotesProcessor, note: string, r: Result<seq<FinalCode>>)
    requires IsPipelineResult(p, note, r) && r.Ok?
    ensures forall f :: f in r.value ==>
      f.code in p.adjustor.base.validator.codes && f.description == p.adjustor.base.validator.codes[f.code].description
  {
    var coderCodes, reviewerCodes, physicianCodes, patientCodes, unique := PipelineStages(p, note, r);
    var adjusted := AdjustorStage(p.adjustor, note, reviewerCodes, physicianCodes, patientCodes, unique);
    var completion := p.adjustor.base.complete(SystemInstructions(p.adjustor.base),
      AdjustorPrompt(note, reviewerCodes, physicianCodes, patientCodes,
        RenderFeedback(Classify(p.adjustor.base.validator, unique)),
        RetrieveCodes(p.adjustor, reviewerCodes + physicianCodes + patientCodes, None)));
    assert adjusted == Ok(Validated(p.adjustor.base.validator, completion.value));
    ValidatedSound(p.adjustor.base.validator, completion.value);
    forall f | f in r.value
      ensures f.code in p.adjustor.base.validator.codes && f.description == p.adjustor.base.validator.codes[f.code].description
    {
      var i :| 0 <= i < |r.value| && r.value[i] == f;
      assert adjusted.value[i] in Validated(p.adjustor.base.validator, completion.value);
    }
  }

  /** A completion service that always fails, in any of the five slots, fails the whole run. */
  lemma FailingServiceAborts(p: NotesProcessor, note: string, r: Result<seq<FinalCode>>)
    requires IsPipelineResult(p, note, r)
    requires || (forall si, pr :: p.coder.complete(si, pr).Raised?)
             || (forall si, pr :: p.reviewer.base.complete(si, pr).Raised?)
             || (forall si, pr :: p.physician.complete(si, pr).Raised?)
             || (forall si, pr :: p.patient.complete(si, pr).Raised?)
             || (forall si, pr :: p.adjustor.base.complete(si, pr).Raised?)
    ensures r.Raised?
  {
    if CoderStage(p.coder, note).Ok? {
      var coderCodes := CoderStage(p.coder, note).value;
      if ReviewerStage(p.reviewer, note, coderCodes, ReviewerK).Ok? {
        var reviewerCodes := ReviewerStage(p.reviewer, note, coderCodes, ReviewerK).value;
        if JudgeStage(p.physician, note, reviewerCodes).Ok? && JudgeStage(p.patient, note, reviewerCodes).Ok? {
          AdjustorFailureAborts(p, note, r, coderCodes, reviewerCodes);
        }
      }
    }
  }

  /** The last case of `FailingServiceAborts`: every stage before the adjustor succeeded. */
  lemma AdjustorFailureAborts(p: NotesProcessor, note: string, r: Result<seq<FinalCode>>,
    coderCodes: seq<CodeEntry>, reviewerCodes: seq<CodeEntry>)
    requires IsPipelineResult(p, note, r)
    requires CoderStage(p.coder, note) == Ok(coderCodes)
    requires ReviewerStage(p.reviewer, note, coderCodes, ReviewerK) == Ok(reviewerCodes)
    requires JudgeStage(p.physician, note, reviewerCodes).Ok? && JudgeStage(p.patient, note, reviewerCodes).Ok?
    requires forall si, pr :: p.adjustor.base.complete(si, pr).Raised?
    ensures r.Raised?
  {
    var physicianCodes := JudgeStage(p.physician, note, reviewerCodes).value;
    var patientCodes := JudgeStage(p.patient, note, reviewerCodes).value;
    var adjusted :| IsAdjustorResult(p.adjustor, note, reviewerCodes, physicianCodes, patientCodes, adjusted)
      && r == Finalized(adjusted);
    var unique :| IsListing(unique, PooledCodes(reviewerCodes, physicianCodes, patientCodes))
      && adjusted == AdjustorStage(p.adjustor, note, reviewerCodes, physicianCodes, patientCodes, unique);
  }

  /**
   * With stubbed completion services that succeed, the run's result is decided by the adjustor's
   * stub alone: its codes, validated against the adjustor's vocabulary, then projected.
   */
  lemma StubbedPipeline(
    p: NotesProcessor, note: string, r: Result<seq<FinalCode>>,
    coderOut: seq<CodeEntry>, reviewerOut: seq<CodeEntry>, physicianOut: seq<CodeEntry>,
    patientOut: seq<CodeEntry>, adjustorOut: seq<CodeEntry>)
    requires forall si, pr :: p.coder.complete(si, pr) == Ok(coderOut)
    requires forall si, pr :: p.reviewer.base.complete(si, pr) == Ok(reviewerOut)
    requires forall si, pr :: p.physician.complete(si, pr) == Ok(physicianOut)
    requires forall si, pr :: p.patient.complete(si, pr) == Ok(patientOut)
    requires forall si, pr :: p.adjustor.base.complete(si, pr) == Ok(adjustorOut)
    requires IsPipelineResult(p, note, r)
    ensures r == Ok(Projected(Validated(p.adjustor.base.validator, adjustorOut)))
  {
    assert p.coder.complete(SystemInstructions(p.coder), CoderPrompt(note)).Ok?;
    assert CoderStage(p.coder, note).Ok?;
    var coderCodes := CoderStage(p.coder, note).value;
    assert ReviewerStage(p.reviewer, note, coderCodes, ReviewerK).Ok?;
    var reviewerCodes := ReviewerStage(p.reviewer, note, coderCodes, ReviewerK).value;
    assert JudgeStage(p.physician, note, reviewerCodes).Ok? && JudgeStage(p.patient, note, reviewerCodes).Ok?;
    var physicianCodes := JudgeStage(p.physician, note, reviewerCodes).value;
    var patientCodes := JudgeStage(p.patient, note, reviewerCodes).value;
    var adjusted :| IsAdjustorResult(p.adjustor, note, reviewerCodes, physicianCodes, patientCodes, adjusted)
      && r == Finalized(adjusted);
    var unique :| IsListing(unique, PooledCodes(reviewerCodes, physicianCodes, patientCodes))
      && adjusted == AdjustorStage(p.adjustor, note, reviewerCodes, physicianCodes, patientCodes, unique);
  }

  /**
   * The end-to-end scenario: every stage's stub passes J18.9 through with a description of its
   * own; the vocabulary knows J18.9 as billable. The result carries the vocabulary's description.
   */
  lemma PneumoniaEndToEnd(p: NotesProcessor, note: string, r: Result<seq<FinalCode>>, stubDescription: string)
    requires var stub := CodeEntry("J18.9", stubDescription, "pneumonia", None, None);
      && (forall si, pr :: p.coder.complete(si, pr) == Ok([stub]))
      && (forall si, pr :: p.reviewer.base.complete(si, pr) == Ok([stub]))
      && (forall si, pr :: p.physician.complete(si, pr) == Ok([stub]))
      && (forall si, pr :: p.patient.complete(si, pr) == Ok([stub]))
      && (forall si, pr :: p.adjustor.base.complete(si, pr) == Ok([stub]))
    requires p.adjustor.base.validator.codes == map["J18.9" := VocabEntry("J18.9", "Pneumonia, unspecified organism", true)]
    requires IsPipelineResult(p, note, r)
    ensures r == Ok([FinalCode("J18.9", "pneumonia", "Pneumonia, unspecified organism")])
  {
    var stub := CodeEntry("J18.9", stubDescription, "pneumonia", None, None);
    var v := p.adjustor.base.validator;
    StubbedPipeline(p, note, r, [stub], [stub], [stub], [stub], [stub]);
    KnownCodeKept(v, stub);
    assert Projected([stub.(description := "Pneumonia, unspecified organism")])
        == [FinalCode("J18.9", "pneumonia", "Pneumonia, unspecified organism")];
  }

  /** A single vocabulary code is kept, with the vocabulary's description. */
  lemma KnownCodeKept(v: Validator, known: CodeEntry)
    requires known.code in v.codes
    ensures Validated(v, [known]) == [known.(description := v.codes[known.code].description)]
  {
    assert [known][1..] == [];
    assert Validated(v, [known]) == ValidatedEntry(v, known) + Validated(v, []);
  }

  /** A coder output with one vocabulary code and one unknown code keeps only the former. */
  lemma UnknownCodeDropped(v: Validator, known: CodeEntry, unknown: CodeEntry)
    requires known.code in v.codes && unknown.code !in v.codes
    ensures Validated(v, [known, unknown]) == [known.(description := v.codes[known.code].description)]
  {
    assert [known, unknown][1..] == [unknown];
    assert [unknown][1..] == [];
    assert Validated(v, [unknown]) == ValidatedEntry(v, unknown) + Validated(v, []) == [];
  }
}
