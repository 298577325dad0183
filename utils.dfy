/** The code-format and list helpers of src/utils.py. */
module Utils {

  import opened Wrappers
  import opened Schemas
  import opened PyStrings

  predicate IsUpper(c: char)
  {
    'A' <= c <= 'Z'
  }

  /**
   * `s` is matched in full by `[A-Z][0-9]{2}(?:\.[0-9]{1,4})?`: a capital letter, two digits,
   * and optionally a dot followed by one to four digits.
   */
  predicate MatchesCodePattern(s: string)
  {
    && (|s| == 3 || (5 <= |s| <= 8 && s[3] == '.'))
    && IsUpper(s[0]) && IsDigit(s[1]) && IsDigit(s[2])
    && forall i :: 4 <= i < |s| ==> IsDigit(s[i])
  }

  /**
   * `check_icd10_validity(code)`: `re.match` of `^...$`. Python's `$` also matches just before a
   * final newline, so the pattern may be followed by one "\n".
   */
  predicate CheckIcd10Validity(code: string)
  {
    || MatchesCodePattern(code)
    || (|code| > 0 && code[|code| - 1] == '\n' && MatchesCodePattern(code[..|code| - 1]))
  }

  /** `get_codes(x)`: the `code` of every entry of `x["icd10_codes"]`, in order. */
  function GetCodes(entries: seq<CodeEntry>): (r: seq<string>)
    ensures |r| == |entries|
    ensures forall i :: 0 <= i < |entries| ==> r[i] == entries[i].code
  {
    seq(|entries|, i requires 0 <= i < |entries| => entries[i].code)
  }

  /** An `icd10_codes` entry as read by `get_code_and_status`; `None` is an absent key. */
  datatype StatusEntry = StatusEntry(code: Option<string>, status: Option<string>)

  /**
   * `get_code_and_status(input)`: builds a set of (code, status) pairs and discards it, so it
   * returns None (`Ok(())`) or raises KeyError at the first entry lacking `code`, then `status`.
   */
  function GetCodeAndStatus(entries: seq<StatusEntry>): (r: Result<()>)
    ensures r.Ok? <==> forall i :: 0 <= i < |entries| ==> entries[i].code.Some? && entries[i].status.Some?
    ensures r.Raised? ==> r.error in {KeyError("code"), KeyError("status")}
  {
    if entries == [] then Ok(())
    else if entries[0].code.None? then Raised(KeyError("code"))
    else if entries[0].status.None? then Raised(KeyError("status"))
    else GetCodeAndStatus(entries[1..])
  }

  /** A letter, of either case, anywhere after the dot (as in "T36.0X1A") makes the check fail. */
  lemma LetterAfterDotRejected(code: string, i: nat)
    requires 4 <= i < |code| && (IsUpper(code[i]) || 'a' <= code[i] <= 'z')
    ensures !CheckIcd10Validity(code)
  {
    if |code| > 0 && code[|code| - 1] == '\n' && i < |code| - 1 {
      assert code[..|code| - 1][i] == code[i];
    }
  }

  /** A lower-case first letter makes the check fail. */
  lemma LowercaseFirstRejected(code: string)
    requires |code| > 0 && 'a' <= code[0] <= 'z'
    ensures !CheckIcd10Validity(code)
  {
    if |code| > 1 {
      assert code[..|code| - 1][0] == code[0];
    }
  }

  /**
   * A letter followed by a run of `n` digits, `n` other than two, makes the check fail: the run
   * ends at the end of the code or at a non-digit.
   */
  lemma DigitCountRejected(code: string, n: nat)
    requires n != 2 && 1 + n <= |code|
    requires forall j :: 1 <= j <= n ==> IsDigit(code[j])
    requires 1 + n == |code| || !IsDigit(code[1 + n])
    ensures !CheckIcd10Validity(code)
  {
    if |code| > 0 && code[|code| - 1] == '\n' {
      var s := code[..|code| - 1];
      assert forall j :: 0 <= j < |s| ==> s[j] == code[j];
      if n < 2 && 1 + n < |s| {
        assert !IsDigit(s[1 + n]);
      }
    }
  }

  /** A dot not followed by a digit makes the check fail. */
  lemma BareDotRejected(code: string)
    requires |code| >= 4 && code[3] == '.'
    requires |code| == 4 || !IsDigit(code[4])
    ensures !CheckIcd10Validity(code)
  {
    if |code| > 0 && code[|code| - 1] == '\n' {
      var s := code[..|code| - 1];
      assert forall j :: 0 <= j < |s| ==> s[j] == code[j];
    }
  }

  /** Five or more digits after the dot make the check fail. */
  lemma LongDecimalRejected(code: string)
    requires |code| >= 9 && code[3] == '.'
    requires forall j :: 4 <= j < 9 ==> IsDigit(code[j])
    ensures !CheckIcd10Validity(code)
  {
    if |code| > 0 && code[|code| - 1] == '\n' {
      assert code[8] != '\n';
    }
  }

  /** The shapes the pattern turns down: lower-case letter, wrong digit count, bare dot, five decimals. */
  lemma RejectedShapes()
    ensures !CheckIcd10Validity("a01")
    ensures !CheckIcd10Validity("A1") && !CheckIcd10Validity("A001")
    ensures !CheckIcd10Validity("A01.")
    ensures !CheckIcd10Validity("A01.12345")
    ensures !CheckIcd10Validity("T36.0X1A")
  {
    LetterAfterDotRejected("T36.0X1A", 5);
  }

  /** The shapes it accepts, including a single trailing newline. */
  lemma AcceptedShapes()
    ensures CheckIcd10Validity("A01") && CheckIcd10Validity("J18.9") && CheckIcd10Validity("E11.6541")
    ensures CheckIcd10Validity("A01\n") && CheckIcd10Validity("J18.9\n")
    ensures !CheckIcd10Validity("A01\n\n")
  {
    assert "A01\n"[..3] == "A01";
    assert "J18.9\n"[..5] == "J18.9";
    assert "A01\n\n"[..4] == "A01\n";
  }
}
