/** The record shapes exchanged by the pipeline (src/schemas.py and the vocabulary rows). */
module Schemas {

  import opened Wrappers

  /** One row of the ICD-10-CM reference vocabulary as the validator stores it. */
  datatype VocabEntry = VocabEntry(code: string, description: string, isBillable: bool)

  datatype Recommendation = Include | Reject

  /**
   * One code proposed by a stage. `explanation` is present for the explained schemas and
   * `recommendation` only for the physician and patient stages.
   */
  datatype CodeEntry = CodeEntry(
    code: string,
    description: string,
    evidence: string,
    explanation: Option<string>,
    recommendation: Option<Recommendation>)

  /** The public result of the pipeline: `{code, evidence, description}`. */
  datatype FinalCode = FinalCode(code: string, evidence: string, description: string)
}
