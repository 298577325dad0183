/**
 * The ICD-10 reference validator (src/validator.py): an immutable dictionary from code string
 * to vocabulary record, built once from a list of records, with read-only lookups.
 */
module Validator {

  import opened Wrappers
  import opened Schemas

  /**
   * A record as handed to the constructor: a dictionary that may lack any of its keys.
   * `None` stands for an absent key.
   */
  datatype SourceRecord = SourceRecord(code: Option<string>, description: Option<string>, isBillable: Option<bool>)

  datatype Validator = Validator(codes: map<string, VocabEntry>)

  /** The constructor's assertions: the record has `is_billable` and `description`. */
  predicate HasRequiredKeys(r: SourceRecord)
  {
    r.isBillable.Some? && r.description.Some?
  }

  predicate HasCode(r: SourceRecord, c: string)
  {
    r.code == Some(c)
  }

  /** The record stored for a complete source record. */
  function Stored(r: SourceRecord): VocabEntry
    requires HasRequiredKeys(r) && r.code.Some?
  {
    VocabEntry(r.code.value, r.description.value, r.isBillable.value)
  }

  /** The dictionary the constructor stores: every record keyed by its code, later records overwriting earlier ones. */
  function CodeMap(records: seq<SourceRecord>): (m: map<string, VocabEntry>)
    requires forall i :: 0 <= i < |records| ==> HasRequiredKeys(records[i]) && records[i].code.Some?
  {
    if records == [] then map[]
    else
      var last := records[|records| - 1];
      assert HasRequiredKeys(last) && last.code.Some?;
      CodeMap(records[..|records| - 1])[last.code.value := Stored(last)]
  }

  /**
   * `ICD10Validator(codes)`: every record is asserted first, so any record without `is_billable`
   * or `description` raises AssertionError; only then is the map built, where a record without
   * `code` raises KeyError.
   */
  function NewValidator(records: seq<SourceRecord>): (r: Result<Validator>)
    ensures r == Raised(AssertionError) <==> exists i :: 0 <= i < |records| && !HasRequiredKeys(records[i])
    ensures r.Ok? <==> forall i :: 0 <= i < |records| ==> HasRequiredKeys(records[i]) && records[i].code.Some?
    ensures r.Ok? ==> forall c :: c in r.value.codes <==> exists i :: 0 <= i < |records| && HasCode(records[i], c)
  {
    if exists i :: 0 <= i < |records| && !HasRequiredKeys(records[i]) then Raised(AssertionError)
    else if exists i :: 0 <= i < |records| && records[i].code.None? then Raised(KeyError("code"))
    else
      CodeMapKeys(records);
      Ok(Validator(CodeMap(records)))
  }

  /** `check_code_validity(code)`: dictionary membership. */
  predicate CheckCodeValidity(v: Validator, code: string)
  {
    code in v.codes
  }

  /** `check_code_billable(code)`: the stored flag, or KeyError for a code that is not valid. */
  function CheckCodeBillable(v: Validator, code: string): (r: Result<bool>)
    ensures r.Ok? <==> CheckCodeValidity(v, code)
    ensures r.Raised? ==> r.error == KeyError(code)
  {
    if code in v.codes then Ok(v.codes[code].isBillable) else Raised(KeyError(code))
  }

  /** `get_description(code)`: the stored description, or KeyError for a code that is not valid. */
  function GetDescription(v: Validator, code: string): (r: Result<string>)
    ensures r.Ok? <==> CheckCodeValidity(v, code)
    ensures r.Raised? ==> r.error == KeyError(code)
  {
    if code in v.codes then Ok(v.codes[code].description) else Raised(KeyError(code))
  }

  /** `get_all_data(code)`: the whole stored record, or KeyError for a code that is not valid. */
  function GetAllData(v: Validator, code: string): (r: Result<VocabEntry>)
    ensures r.Ok? <==> CheckCodeValidity(v, code)
    ensures r.Raised? ==> r.error == KeyError(code)
  {
    if code in v.codes then Ok(v.codes[code]) else Raised(KeyError(code))
  }

  /** Every stored record sits under its own code. */
  ghost predicate WellKeyed(v: Validator)
  {
    forall c :: c in v.codes ==> v.codes[c].code == c
  }

  lemma {:induction false} CodeMapKeys(records: seq<SourceRecord>)
    requires forall i :: 0 <= i < |records| ==> HasRequiredKeys(records[i]) && records[i].code.Some?
    ensures forall c :: c in CodeMap(records) <==> exists i :: 0 <= i < |records| && HasCode(records[i], c)
    ensures forall c :: c in CodeMap(records) ==> CodeMap(records)[c].code == c
  {
    if records != [] {
      var init := records[..|records| - 1];
      CodeMapKeys(init);
      forall c | c in CodeMap(records)
        ensures exists i :: 0 <= i < |records| && HasCode(records[i], c)
      {
        if c in CodeMap(init) {
          var i :| 0 <= i < |init| && HasCode(init[i], c);
          assert HasCode(records[i], c);
        } else {
          assert HasCode(records[|records| - 1], c);
        }
      }
      forall c | exists i :: 0 <= i < |records| && HasCode(records[i], c)
        ensures c in CodeMap(records)
      {
        var i :| 0 <= i < |records| && HasCode(records[i], c);
        if i < |init| {
          assert HasCode(init[i], c);
        }
      }
    }
  }

  /** For a code that occurs in the records, the stored record is built from the LAST record carrying it. */
  lemma {:induction false} CodeMapLastWins(records: seq<SourceRecord>, i: nat)
    requires forall k :: 0 <= k < |records| ==> HasRequiredKeys(records[k]) && records[k].code.Some?
    requires i < |records|
    requires forall k :: i < k < |records| ==> records[k].code != records[i].code
    ensures records[i].code.value in CodeMap(records)
    ensures CodeMap(records)[records[i].code.value]
         == VocabEntry(records[i].code.value, records[i].description.value, records[i].isBillable.value)
  {
    if i < |records| - 1 {
      CodeMapLastWins(records[..|records| - 1], i);
    }
  }

  /**
   * The lookups of a validator built from `records`, for the last record `records[i]` carrying
   * code `c`: it is valid, and billability, description and full record are that record's.
   */
  lemma LookupKnownCode(records: seq<SourceRecord>, i: nat)
    requires NewValidator(records).Ok?
    requires i < |records|
    requires forall k :: i < k < |records| ==> records[k].code != records[i].code
    ensures var v := NewValidator(records).value;
      var c := records[i].code.value;
      && CheckCodeValidity(v, c)
      && CheckCodeBillable(v, c) == Ok(records[i].isBillable.value)
      && GetDescription(v, c) == Ok(records[i].description.value)
      && GetAllData(v, c) == Ok(VocabEntry(c, records[i].description.value, records[i].isBillable.value))
  {
    CodeMapLastWins(records, i);
  }

  /** A code carried by no record is not valid, and every other lookup of it raises KeyError. */
  lemma LookupUnknownCode(records: seq<SourceRecord>, c: string)
    requires NewValidator(records).Ok?
    requires forall k :: 0 <= k < |records| ==> !HasCode(records[k], c)
    ensures var v := NewValidator(records).value;
      && !CheckCodeValidity(v, c)
      && CheckCodeBillable(v, c) == Raised(KeyError(c))
      && GetDescription(v, c) == Raised(KeyError(c))
      && GetAllData(v, c) == Raised(KeyError(c))
  {
  }

  /** A constructed validator stores each record under its own code. */
  lemma NewValidatorWellKeyed(records: seq<SourceRecord>)
    requires NewValidator(records).Ok?
    ensures WellKeyed(NewValidator(records).value)
  {
    CodeMapKeys(records);
  }
}
