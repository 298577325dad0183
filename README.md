# icd10-coder: a Dafny model of the deterministic core

icd10-coder assigns ICD-10-CM diagnosis codes to clinical notes with a chain of language-model
agents. A coder proposes codes. A reviewer revises them, guided by vocabulary feedback and by
retrieved candidate codes. A physician and a patient each judge the reviewer's codes. An
adjustor reconciles all of them, and its output is cut down to `{code, evidence, description}`.
Every stage checks what the model returns against the ICD-10-CM reference vocabulary.

This project models the parts of that system that do not depend on the language model:

- `wrappers.dfy` (`Wrappers`): `Option` and `Result`. A Python exception becomes a
  `Raised(...)` value naming the exception.
- `schemas.dfy` (`Schemas`): the record shapes that flow between agents.
- `pystrings.dfy` (`PyStrings`): the Python string operations the core relies on:
  - `str.strip`, slicing that clamps its bounds, and left-justified padding;
  - substring containment.
- `validator.dfy` (`Validator`): the reference vocabulary. It is built once from the CMS records
  and then only queried. Each query raises `KeyError` for a code the vocabulary lacks.
- `agents.dfy` (`Agents`): the data flow of the agent pipeline. This covers:
  - the validation of each stage's output;
  - the sectioned vocabulary feedback;
  - the concatenation of retrieved candidates;
  - the adjustor's pooling;
  - the final projection;
  - the fixed order of the five stages.

  The completion service and the retriever are opaque function values. A failing completion is
  a `Raised` result that aborts the run.
- `evaluate.dfy` (`Evaluate`): Jaccard similarity, with exact `real` division, and the per-pair
  analysis of predicted against reference codes.
- `utils.dfy` (`Utils`): the ICD-10 code-shape check, written as a character-class predicate
  equivalent to the regular expression. It also has `get_codes` and `get_code_and_status`.
- `icd10_data.dfy` (`Icd10Data`): dot insertion into raw codes, and the parser for one
  fixed-width line of the CMS order file.
- `hierarchy.dfy` (`Hierarchy`): the walks over the ICD-10-CM tabular XML, over an already-parsed
  element tree. Only the ElementTree path forms the code uses are defined:
  - `find(tag)`;
  - `findall("./diag")`;
  - `findall(".//diag")`;
  - `findall(".//t/note")`.

  The closure-based `parse_icd10_xml` is a `Collector` class whose `codes` field grows as the
  traversal runs.

Each method that loops or changes state is proved against a specification function. The
properties the code promises are then proved about those functions as lemmas. Three sources of
nondeterminism are handled as follows:

- The listing order of a Python set is left open, through the predicate `IsListing`.
- The ordering of `process_note`'s stages is a predicate over the stages' results.
- Every `findall` result is in pre-order.

Where the code's own comments suggest otherwise, the model follows what the code does:

- Under `# Get regular includes` and the excludes lookups, `process_diagnostic_code` searches
  `.//note/note` below `includes`, `excludes1` and `excludes2`. So it collects only notes
  nested inside another note, not the notes directly under those elements
  (`FlatNotesIgnored`, `FlatExcludesDropped`).
- Under `# Process all child diag elements`, module-level `process_element` searches `.//diag`,
  which reaches every diag below, not only the children. So it visits each nested diag once per
  diag ancestor (`ProcessedRevisits`).
- The pipeline processes stages and notes strictly one after another, so no concurrency is
  modelled.

## Model

| member | source | states |
|---|---|---|
| Validator.NewValidator | src/validator.py:5-9 | Construction raises AssertionError exactly when some record lacks `is_billable` or `description`. On success the map's keys are exactly the records' codes. |
| Validator.CodeMapKeys | src/validator.py:9 | The dictionary comprehension's keys are exactly the input codes, and each code maps to a record carrying that same code. |
| Validator.CodeMapLastWins | src/validator.py:9 | When codes repeat, the last record with a code is the one stored for it. |
| Validator.CheckCodeBillable | src/validator.py:17-19 | Succeeds exactly for codes in the vocabulary, and raises KeyError(code) otherwise. |
| Validator.GetDescription | src/validator.py:21-22 | Succeeds exactly for codes in the vocabulary, and raises KeyError(code) otherwise. |
| Validator.GetAllData | src/validator.py:24-25 | Succeeds exactly for codes in the vocabulary, and raises KeyError(code) otherwise. |
| Validator.LookupKnownCode | src/validator.py:5-25 | A code last given by record i is valid. Its billability, description and whole record are that record's fields, including the code. |
| Validator.LookupUnknownCode | src/validator.py:11-25 | A code no record carries is invalid, and every lookup of it raises KeyError with that code. |
| Validator.NewValidatorWellKeyed | src/validator.py:9 | Every stored record is filed under its own code. |
| Utils.GetCodes | src/utils.py:16-17 | One code per entry, in the same order. |
| Utils.GetCodeAndStatus | src/utils.py:20-24 | Returns nothing when every entry has both `code` and `status`. Otherwise it raises KeyError for a missing key. |
| Utils.LetterAfterDotRejected | src/utils.py:67-70 | Any code with a letter of either case at position 4 or later, such as T36.0X1A or T36.0x1a, fails the check. |
| Utils.LowercaseFirstRejected | src/utils.py:67-70 | Any code that starts with a lowercase letter fails the check. |
| Utils.DigitCountRejected | src/utils.py:67-70 | Any code whose run of digits from position 1 has a length other than two, ending at the end of the code or at a non-digit, fails the check. |
| Utils.BareDotRejected | src/utils.py:67-70 | Any code with a dot at position 3 that is not followed by a digit fails the check. |
| Utils.LongDecimalRejected | src/utils.py:67-70 | Any code with five or more digits after the dot fails the check. |
| Utils.RejectedShapes | src/utils.py:67-70 | Rejected codes: a lowercase first letter, a digit count other than two before the dot, a bare dot, five digits after the dot, and a letter after the dot. |
| Utils.AcceptedShapes | src/utils.py:67-70 | Accepted codes: the three-character, dotted and four-digit forms. `$` also accepts one trailing newline, but not two. |
| Icd10Data.ProcessCode | src/process_icd10_data.py:5-10 | Codes of length at most 3 come back unchanged. A longer code gains one character, keeps its first three characters, and has "." at index 3. |
| Icd10Data.ProcessCodeRoundTrip | src/process_icd10_data.py:5-10 | Deleting index 3 of a dotted code gives back the raw code. |
| Icd10Data.WellFormedIsProcessed | src/process_icd10_data.py:5-10 | Every dotted code that passes the shape check is the dot insertion of its undotted form. |
| Icd10Data.ProcessCodeWellFormed | src/process_icd10_data.py:5-10 | Dot insertion into a letter followed by 2–6 digits yields a code that passes the shape check. |
| Icd10Data.ParseFlagDigits | src/process_icd10_data.py:17-27 | `int(c.strip())` succeeds exactly for a decimal digit, and its value is that digit. |
| Icd10Data.ReadCodeLine | src/process_icd10_data.py:13-28 | Raises IndexError exactly for lines shorter than 15 characters. Both descriptions in a parsed record are stripped. |
| Icd10Data.ReadCodeLineFlag | src/process_icd10_data.py:17-27 | Raises ValueError exactly when column 14 exists and is not a digit. A parsed flag lies in 0..9. |
| Icd10Data.OrderLineColumns | src/process_icd10_data.py:15-19 | In the CMS fixed-width layout, the slices that `read_code_line` takes are the padded code, the flag, the padded short description, and the long description with its newline. |
| Icd10Data.ReadOrderLine | src/process_icd10_data.py:13-28 | Round trip: parsing a CMS order line built from stripped fields yields exactly those fields, with the code dotted and the flag as a number. |
| Evaluate.JaccardElseUnreachable | evaluate.py:22-26 | When the sets are not both empty, the union is non-empty, so the `else 0.0` branch is dead. |
| Evaluate.JaccardBounds | evaluate.py:20-26 | The similarity lies in [0, 1]. |
| Evaluate.JaccardSymmetric | evaluate.py:20-26 | The similarity does not depend on argument order. |
| Evaluate.JaccardSelf | evaluate.py:20-26 | A set compared with itself scores 1, including the empty set. |
| Evaluate.JaccardDisjoint | evaluate.py:24-26 | Disjoint non-empty sets score 0. |
| Evaluate.CodeSet | evaluate.py:62-63 | The set holds exactly the codes of the entries. |
| Evaluate.CodeSplit | evaluate.py:66-68 | Pred-only, output-only and common codes are pairwise disjoint, and together make up the union. |
| Evaluate.InvalidAndNonBillable | evaluate.py:71-88 | The invalid codes are those missing from the vocabulary. The non-billable codes are vocabulary codes with a false flag, so the two sets are disjoint. |
| Evaluate.DetailsExact | evaluate.py:91-93 | A detail list holds exactly the entries whose code is in the set, and is no longer than the input. |
| Evaluate.DetailsAppend | evaluate.py:91-93 | The detail filter keeps order: filtering a concatenation is concatenating the filtered parts. |
| Evaluate.AnalyzePairFacts | evaluate.py:61-114 | A pair's record has a similarity in [0, 1]. Each detail list is exactly the entries whose code the other side lacks. The common codes are the codes on both sides. The invalid sets are the codes outside the vocabulary and never meet the non-billable sets. |
| Evaluate.AnalyzePredictions | evaluate.py:29-118 | The loop's results are the per-pair analyses of the complete files, in file order. |
| Evaluate.AnalyzeAllCount | evaluate.py:52-54 | The number of results equals the number of complete files. A file missing its note or its reference output yields none, and a complete file yields exactly one. |
| Evaluate.AnalyzeAllMember | evaluate.py:46-116 | A result is in the list exactly when it is the analysis of some complete file. |
| Evaluate.AnalyzeAllSound | evaluate.py:46-116 | Every analysis in the list is that of a complete file, and the lemma names its index. |
| Evaluate.AnalyzeAllComplete | evaluate.py:46-116 | The analysis of every complete file is in the list. |
| Agents.ValidateOutput | src/agents.py:129-158 | The loop's result is the vocabulary filter of the completion's entries, with descriptions replaced. |
| Agents.ValidatedAppend | src/agents.py:141-156 | Validation works entry by entry and keeps order. |
| Agents.ValidatedSound | src/agents.py:141-156 | Every kept entry has a vocabulary code and the vocabulary's description. Apart from the description, it equals an input entry. |
| Agents.ValidatedComplete | src/agents.py:141-156 | Every entry whose code is valid survives, whether billable or not, with its description overwritten. |
| Agents.ValidatedIdempotent | src/agents.py:129-158 | Validating validated output changes nothing. |
| Agents.KnownCodeKept | src/agents.py:144-156 | A single known code is kept, with only its description replaced. |
| Agents.UnknownCodeDropped | src/agents.py:144-156 | An unknown code is dropped while a known one beside it is kept. |
| Agents.ClassifyByKind | src/agents.py:252-260 | Each code lands in the invalid, not-billable or valid list exactly when that is its kind, and duplicates and order are kept. The valid list holds the vocabulary records. |
| Agents.ClassifyCount | src/agents.py:252-260 | The three lists together have as many items as the input. |
| Agents.OfKindMember | src/agents.py:254-260 | Every code appears in the list of its own kind. |
| Agents.CodeFeedback | src/agents.py:242-273 | The loop's string is the rendering of the three-way classification. |
| Agents.SectionsPresentIff | src/agents.py:262-271 | Each section is present exactly when its list is non-empty. |
| Agents.FeedbackEmptyIff | src/agents.py:242-273 | The feedback is empty exactly when no codes are given. |
| Agents.FeedbackMentionsEveryCode | src/agents.py:252-273 | Every input code appears in the feedback text: in a list repr or inside a record's JSON. |
| Agents.PyListReprMentions | src/agents.py:262-267 | A Python list repr contains each of its items. |
| Agents.JoinedJsonMentions | src/agents.py:260-271 | The newline-joined JSON records contain each record's code. |
| Agents.RetrieveAllAppend | src/agents.py:229-236 | Retrieval distributes over concatenation of the entry list, keeping entry order. |
| Agents.RetrieveAllMember | src/agents.py:229-236 | A candidate is retrieved exactly when the retriever returns it for some entry's evidence. |
| Agents.RetrieveCodesDefaultK | src/agents.py:227-228 | A `k` of None or 0 falls back to `num_candidates`. Any other `k` is used as given. |
| Agents.ValidateCompletion | src/agents.py:178-180 | A failed completion aborts with its exception. Otherwise the stage returns the validated codes. |
| Agents.ListFromSet | src/agents.py:353 | `list(set(...))` lists each member of the set exactly once. |
| Agents.CoderProcess | src/agents.py:166-181 | The coder's result is its validated completion for the note. |
| Agents.ReviewerProcess | src/agents.py:281-303 | The reviewer prompts with feedback on the coder's code strings and with candidates retrieved with its `k`, then validates the completion. |
| Agents.JudgeProcess | src/agents.py:311-329 | The physician or patient judges the reviewer's codes and returns the validated completion. |
| Agents.AdjustorProcess | src/agents.py:337-363 | The adjustor's result holds for some listing of the de-duplicated pooled codes. Feedback runs over that listing, retrieval over the full pool with duplicates and the default `k`. The coder's codes are not read. |
| Agents.Postprocess | src/agents.py:365-384 | The loop's result is one `{code, evidence, description}` per entry, in order. |
| Agents.ProcessNote | src/agents.py:406-434 | The stages run in a fixed order: coder, reviewer, physician, patient, adjustor, postprocess. Physician and patient both receive the reviewer's output, and the first failing stage aborts the run with its exception. |
| Agents.PipelineStages | src/agents.py:416-434 | A successful run is determined by each stage's successful result and one listing of the pooled codes. |
| Agents.PipelineCodesCanonical | src/agents.py:406-434 | Every final code is in the vocabulary and carries the vocabulary's description. |
| Agents.FailingServiceAborts | src/agents.py:416-433 | If any one agent's completion service always fails, the run fails. |
| Agents.StubbedPipeline | src/agents.py:406-434 | With stubbed completions, the final output is the projection of the validated adjustor stub, whatever the other stubs say. |
| Agents.PneumoniaEndToEnd | src/agents.py:406-434 | Worked run: a J18.9 stub with any description ends up as one final code with the vocabulary's description. |
| Hierarchy.FirstTagged | src/process_icd10_hierarchy.py:7-8 | `find` returns the first child with the tag, or None when no child has it. |
| Hierarchy.Find | src/process_icd10_hierarchy.py:7-20 | `find(tag)` yields a direct child with that tag, or None exactly when there is none. |
| Hierarchy.ChildDiags | src/process_icd10_hierarchy.py:88-90 | `findall("./diag")` is exactly the direct diag children. |
| Hierarchy.DescendantDiags | src/process_icd10_hierarchy.py:70-72 | `findall(".//diag")` is exactly the diags strictly below the element. |
| Hierarchy.NoteChildren | src/process_icd10_hierarchy.py:55 | The `note` children of the given elements, and nothing else. |
| Hierarchy.ExtractNotes | src/process_icd10_hierarchy.py:49-58 | The nested loops compute the notes of each type in turn, keeping non-empty texts. The result is None for a missing element or when no notes are found. |
| Hierarchy.ExtractedNotes | src/process_icd10_hierarchy.py:49-58 | A missing element gives None, and a present result is never empty. |
| Hierarchy.AppendTexts | src/process_icd10_hierarchy.py:55-57 | The inner loop appends the non-empty texts of the found notes, in order. |
| Hierarchy.NotesOfTypesAppend | src/process_icd10_hierarchy.py:54-57 | Going through two lists of note types one after the other gives the texts of the first list, then those of the second. |
| Hierarchy.NotesOfTypesMember | src/process_icd10_hierarchy.py:54-57 | A text is collected exactly when some note type in the list yields it. |
| Hierarchy.ExtractedNotesNone | src/process_icd10_hierarchy.py:52-58 | For a present element, the result is None exactly when no note type yields a non-empty text. |
| Hierarchy.NonEmptyTextsMember | src/process_icd10_hierarchy.py:56-57 | A text is collected exactly when it is non-empty and some note carries it. |
| Hierarchy.NotesMember | src/process_icd10_hierarchy.py:55 | A text is found for type t exactly when some strict descendant tagged t has a note child with that non-empty text. |
| Hierarchy.FlatNotesIgnored | src/process_icd10_hierarchy.py:20-22 | Notes directly under `includes`, with nothing nested, are not collected. |
| Hierarchy.NestedNotesCollected | src/process_icd10_hierarchy.py:25 | Notes found below any descendant are also found from the ancestor. |
| Hierarchy.ProcessDiagnosticCode | src/process_icd10_hierarchy.py:5-46 | Raises AttributeError exactly when `name` or `desc` is missing. Returns None exactly when one of their texts is empty. Otherwise the record carries those texts, and each optional key is present only with a non-empty list. |
| Hierarchy.FlatExcludesDropped | src/process_icd10_hierarchy.py:30-42 | An `excludes1` whose notes are not nested under another note adds no `excludes_1` key. |
| Hierarchy.NestedInclusionTermsIncluded | src/process_icd10_hierarchy.py:25-27 | The inclusion terms of nested diags end up in the outer diag's `includes`. |
| Hierarchy.RecordIncludes | src/process_icd10_hierarchy.py:17-40 | `includes` is the `includes` notes followed by the inclusion terms, present only when non-empty. |
| Hierarchy.PlainDiagRecord | src/process_icd10_hierarchy.py:5-46 | A diag with name and description and no notes gives the bare `{code, desc}` record. |
| Hierarchy.Own | src/process_icd10_hierarchy.py:63-67 | An element contributes at most one record of its own. It raises only when it is a diag missing `name` or `desc`. |
| Hierarchy.OwnMember | src/process_icd10_hierarchy.py:63-67 | An element's own contribution is exactly the record it emits. |
| Hierarchy.ProcessElement | src/process_icd10_hierarchy.py:61-74 | The recursion computes the own record followed by the records of every descendant diag, each processed again in full. |
| Hierarchy.OwnCodes | src/process_icd10_hierarchy.py:62-67 | The diag test and the conditional append give the own contribution. |
| Hierarchy.ProcessEach | src/process_icd10_hierarchy.py:70-72 | The `extend` loop concatenates the descendants' results and stops at the first exception. |
| Hierarchy.ProcessedOkIff | src/process_icd10_hierarchy.py:61-74 | Processing succeeds exactly when the element and every descendant diag have `name` and `desc`. |
| Hierarchy.ProcessedErrors | src/process_icd10_hierarchy.py:61-74 | The only exception is AttributeError. |
| Hierarchy.ProcessedMember | src/process_icd10_hierarchy.py:61-74 | A record is emitted exactly when the element or one of its descendant diags produces it. |
| Hierarchy.ProcessedLeaf | src/process_icd10_hierarchy.py:61-74 | An element with no diag below it gives only its own record. |
| Hierarchy.ProcessedNested | src/process_icd10_hierarchy.py:61-74 | For a diag with one nested diag, the output is its own record followed by the nested record. |
| Hierarchy.ProcessedRevisits | src/process_icd10_hierarchy.py:61-74 | From a non-diag root, a diag with one diag ancestor is emitted twice (2^1). |
| Hierarchy.RevisitsShape | src/process_icd10_hierarchy.py:61-74 | A chapter holding a diag with a nested diag meets ProcessedRevisits' conditions. |
| Hierarchy.Collector.constructor | src/process_icd10_hierarchy.py:79 | The collected list starts empty. |
| Hierarchy.Collector.Visit | src/process_icd10_hierarchy.py:81-95 | The closure appends exactly the pre-order records of the element to `codes`, or raises the exception `Parsed` gives. |
| Hierarchy.Collector.VisitEach | src/process_icd10_hierarchy.py:88-95 | Visiting the children in order appends their records in order and stops at the first exception. |
| Hierarchy.ParseIcd10Xml | src/process_icd10_hierarchy.py:77-100 | The collected list is the pre-order specification of the tree. |
| Hierarchy.ParsedSound | src/process_icd10_hierarchy.py:81-95 | Every parsed record is emitted by the root or by a diag below it. |
| Hierarchy.ParsedBound | src/process_icd10_hierarchy.py:81-95 | There are no more records than diags in the tree. |
| Hierarchy.ParsedVisits | src/process_icd10_hierarchy.py:81-95 | The collected records are the own records of the diags the walk reaches, concatenated in the order it reaches them. |
| Hierarchy.VisitedInPreOrder | src/process_icd10_hierarchy.py:81-95 | The diags the walk reaches form a subsequence, by position, of the subtree's diags in document order. |
| Hierarchy.DiagVisitedInPreOrder | src/process_icd10_hierarchy.py:81-91 | At a diag, the diag itself comes before the diags reached below it, and both keep document order. |
| Hierarchy.OtherVisitedInPreOrder | src/process_icd10_hierarchy.py:92-95 | At an element that is not a diag, only the diags below it are reached, still in document order. |
| Hierarchy.DiagLastInPreOrder | src/process_icd10_hierarchy.py:88-91 | When the last child is a diag, the walk reaches its diags after those of the earlier children, keeping document order. |
| Hierarchy.ParsedOncePerDiag | src/process_icd10_hierarchy.py:81-91 | Each diag is emitted at most once, in document order. The records are the own records of a position-wise subsequence of the tree's pre-order diags. |
| Hierarchy.ParsedFirst | src/process_icd10_hierarchy.py:82-91 | A diag's own record comes first, before those of its children. |
| Hierarchy.ParsedNoChildDiags | src/process_icd10_hierarchy.py:88-91 | A diag without direct diag children gives only its own record. |
| Hierarchy.ParseSkipsIndirectDiag | src/process_icd10_hierarchy.py:61-95 | A diag reached only through a non-diag child of a diag is skipped by `parse_icd10_xml` but emitted by `process_element`. |
| Hierarchy.SkipsShape | src/process_icd10_hierarchy.py:88-95 | A diag holding a section that holds a diag meets ParseSkipsIndirectDiag's conditions. |
| Hierarchy.AlternativeParser | src/process_icd10_hierarchy.py:102-112 | The call succeeds exactly when the whole tree loads, and fails only with AttributeError. On success it gives one entry per descendant diag in pre-order, with None entries kept. |
| Hierarchy.ProcessEachDiag | src/process_icd10_hierarchy.py:109-110 | The loop yields one `process_diagnostic_code` result per node, in order. |

## Left out

- The completion service: the OpenAI client, `get_structured_output`, the prompt wording and logging. An agent's completion is an opaque function from system instructions and a prompt datatype to a result.
- The retrievers: embeddings, vector search and fuzzy scoring. A retriever is an opaque function from a query and `k` to vocabulary records.
- The web service, its start-up wiring, and the HTTP client script. The web service passes the patient agent into the physician slot. The model goes by slot, so this swap does not change it.
- File I/O: the JSON and text loaders, the directory scan and the evaluation's `main`, `read_json` and `write_json`, logger setup, the order-file import script and the hierarchy `main`. The evaluation takes the files' contents as values.
- XML text parsing. The hierarchy functions start from a parsed element tree.
- Exact `repr` and JSON escaping. Quotes inside codes or descriptions are not escaped. The feedback properties only need each code to appear in the text.
- Python `float`. Jaccard similarity uses exact rational division.
- Non-ASCII digits, which `int()` also accepts. Only '0'–'9' are digits here.
- Agents.ValidateOutput: works on values. The in-place update of the caller's dictionaries is not modelled; the pipeline never reads those dictionaries again.
- Agents.AdjustorProcess: the order in which `list(set(...))` lists the pooled codes is left open. Results are stated for any listing.
- Hierarchy.ProcessedRevisits: proves the 2^m revisit count only for m = 1. The general count is not stated.
- Hierarchy.NotesMember: `.//t/note` is taken as the note children of each descendant `t` in pre-order, not the document order of the notes themselves.
- Concurrency. The code runs every stage and every note sequentially.
- Evaluate.AnalyzePair: `common_codes` and the invalid and non-billable code lists are kept as sets. The Python `list(...)` of a set has no specified order, so the model states only their members.
- Console output: the `print` of "early exit" in `process_diagnostic_code` and the missing-files warning in `analyze_predictions`. Neither changes a result.
