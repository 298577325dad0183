/**
 * Reading the CMS ICD-10-CM order file (src/process_icd10_data.py): one fixed-width line per
 * code, with the order number in columns 1-5, the code in 7-13, the "valid for HIPAA
 * submission" flag in 15, the short description in 17-76 and the long description from 78.
 */
module Icd10Data {

  import opened Wrappers
  import opened PyStrings
  import Utils

  /** `process_code(code)`: a dot after the third character of a code longer than three. */
  function ProcessCode(code: string): (r: string)
    ensures |code| <= 3 ==> r == code
    ensures |code| > 3 ==> |r| == |code| + 1 && r[..3] == code[..3] && r[3] == '.'
  {
    if |code| > 3 then code[..3] + "." + code[3..] else code
  }

  /** `s` without its character at index `i`. */
  function DeleteAt(s: string, i: nat): string
    requires i < |s|
  {
    s[..i] + s[i + 1..]
  }

  /** Removing the inserted dot gives the raw code back. */
  lemma ProcessCodeRoundTrip(code: string)
    requires |code| > 3
    ensures DeleteAt(ProcessCode(code), 3) == code
  {
    assert ProcessCode(code)[4..] == code[3..];
  }

  /** A raw CMS code of a letter, two digits and up to four more digits passes the format check once dotted. */
  lemma ProcessCodeWellFormed(code: string)
    requires 3 <= |code| <= 7 && Utils.IsUpper(code[0])
    requires forall i :: 1 <= i < |code| ==> IsDigit(code[i])
    ensures Utils.CheckIcd10Validity(ProcessCode(code))
  {
    if |code| > 3 {
      var r := ProcessCode(code);
      assert forall i :: 4 <= i < |r| ==> r[i] == code[i - 1];
    }
  }

  /** A dotted code accepted by the format check is `process_code` of its undotted form. */
  lemma WellFormedIsProcessed(code: string)
    requires Utils.MatchesCodePattern(code) && |code| > 3
    ensures ProcessCode(DeleteAt(code, 3)) == code
  {
    var raw := DeleteAt(code, 3);
    assert raw[..3] == code[..3] && raw[3..] == code[4..];
  }

  /** The dictionary `read_code_line` returns; it has exactly these four keys. */
  datatype OrderRecord = OrderRecord(code: string, shortDesc: string, description: string, isBillable: int)

  /** `int(c.strip())` for the single character `c`, None where `int` raises ValueError. */
  function ParseFlag(c: char): Option<int>
  {
    IntOfShort(Strip([c]))
  }

  /** `int(s)` for a string of at most one character: "" and a non-digit raise ValueError. */
  function IntOfShort(s: string): (r: Option<int>)
    requires |s| <= 1
    ensures r.Some? <==> s != [] && IsDigit(s[0])
  {
    if |s| == 1 && IsDigit(s[0]) then Some(DigitValue(s[0])) else None
  }

  /** `int(c.strip())` succeeds exactly on a digit, giving its value; whitespace strips to "" and fails. */
  lemma ParseFlagDigits(c: char)
    ensures ParseFlag(c).Some? <==> IsDigit(c)
    ensures ParseFlag(c).Some? ==> ParseFlag(c).value == DigitValue(c)
  {
    StripChar(c);
    if IsSpace(c) {
      assert Strip([c]) == [];
    } else {
      assert Strip([c]) == [c] && [c][0] == c;
    }
  }

  /**
   * `read_code_line(line)`. `line[14]` raises IndexError on a line shorter than 15 characters;
   * `int(line[14].strip())` raises ValueError unless that character is a digit.
   */
  function ReadCodeLine(line: string): (r: Result<OrderRecord>)
    ensures r == Raised(IndexError) <==> |line| < 15
    ensures r.Ok? ==> Stripped(r.value.shortDesc) && Stripped(r.value.description)
  {
    if |line| < 15 then Raised(IndexError)
    else
      var code := ProcessCode(Strip(Slice(line, 6, 13)));
      var flag := ParseFlag(line[14]);
      if flag.None? then Raised(ValueError)
      else Ok(OrderRecord(code, Strip(Slice(line, 16, 76)), Strip(SliceFrom(line, 77)), flag.value))
  }

  /** The ValueError case: the flag column of a long enough line is not a digit; otherwise the flag is 0-9. */
  lemma ReadCodeLineFlag(line: string)
    ensures ReadCodeLine(line) == Raised(ValueError) <==> |line| >= 15 && !IsDigit(line[14])
    ensures ReadCodeLine(line).Ok? ==> 0 <= ReadCodeLine(line).value.isBillable <= 9
  {
    if |line| >= 15 {
      ParseFlagDigits(line[14]);
    }
  }

  /** Helper for `ReadStrippedColumns`: an accepted line as one record value. */
  lemma {:induction false} ReadCodeLineFields(line: string)
    requires |line| >= 15 && IsDigit(line[14])
    ensures ReadCodeLine(line) == Ok(OrderRecord(
      ProcessCode(Strip(Slice(line, 6, 13))),
      Strip(Slice(line, 16, 76)),
      Strip(SliceFrom(line, 77)),
      DigitValue(line[14])))
  {
    ReadCodeLineAccepts(line);
    OkOfFields(ReadCodeLine(line), ProcessCode(Strip(Slice(line, 6, 13))), Strip(Slice(line, 16, 76)),
               Strip(SliceFrom(line, 77)), DigitValue(line[14]));
  }

  /** A record result is determined by its four fields. */
  lemma OkOfFields(r: Result<OrderRecord>, code: string, shortDesc: string, description: string, isBillable: int)
    requires r.Ok? && r.value.code == code && r.value.shortDesc == shortDesc
    requires r.value.description == description && r.value.isBillable == isBillable
    ensures r == Ok(OrderRecord(code, shortDesc, description, isBillable))
  {
  }

  /** The field-by-field form of `ReadCodeLineFields`. */
  lemma {:induction false} ReadCodeLineAccepts(line: string)
    requires |line| >= 15 && IsDigit(line[14])
    ensures ReadCodeLine(line).Ok?
    ensures ReadCodeLine(line).value.code == ProcessCode(Strip(Slice(line, 6, 13)))
    ensures ReadCodeLine(line).value.shortDesc == Strip(Slice(line, 16, 76))
    ensures ReadCodeLine(line).value.description == Strip(SliceFrom(line, 77))
    ensures ReadCodeLine(line).value.isBillable == DigitValue(line[14])
  {
    ParseFlagDigits(line[14]);
  }

  /**
   * One line of the order file as CMS lays it out: order number, code, flag, short and long
   * description in their columns, then the newline `readlines` keeps.
   */
  function OrderLine(orderNumber: string, code: string, flag: char, shortDesc: string, longDesc: string): (line: string)
    requires |orderNumber| == 5 && |code| <= 7 && |shortDesc| <= 60
  {
    orderNumber + " " + PadRight(code, 7) + " " + [flag] + " " + PadRight(shortDesc, 60) + " " + longDesc + "\n"
  }

  /** The fields of a laid-out line sit in their columns. */
  lemma OrderLineColumns(orderNumber: string, code: string, flag: char, shortDesc: string, longDesc: string)
    requires |orderNumber| == 5 && |code| <= 7 && |shortDesc| <= 60
    ensures var line := OrderLine(orderNumber, code, flag, shortDesc, longDesc);
      && |line| >= 15 && line[14] == flag
      && Slice(line, 6, 13) == PadRight(code, 7)
      && Slice(line, 16, 76) == PadRight(shortDesc, 60)
      && SliceFrom(line, 77) == longDesc + "\n"
  {
    var line := OrderLine(orderNumber, code, flag, shortDesc, longDesc);
    var paddedCode := PadRight(code, 7);
    var paddedShort := PadRight(shortDesc, 60);
    assert line == orderNumber + " " + paddedCode + " " + [flag] + " " + paddedShort + " " + longDesc + "\n";
  }

  /** A line whose stripped columns are given fields reads back as those fields, the code dotted. */
  lemma {:induction false} ReadStrippedColumns(line: string, code: string, flag: char, shortDesc: string, longDesc: string)
    requires |line| >= 15 && line[14] == flag && IsDigit(flag)
    requires Strip(Slice(line, 6, 13)) == code
    requires Strip(Slice(line, 16, 76)) == shortDesc
    requires Strip(SliceFrom(line, 77)) == longDesc
    ensures ReadCodeLine(line) == Ok(OrderRecord(ProcessCode(code), shortDesc, longDesc, DigitValue(flag)))
  {
    ReadCodeLineFields(line);
  }

  /** A line whose columns hold padded fields reads back as those fields, the code dotted. */
  lemma {:induction false} ReadColumns(line: string, code: string, flag: char, shortDesc: string, longDesc: string)
    requires Stripped(code) && Stripped(shortDesc) && Stripped(longDesc) && IsDigit(flag)
    requires |line| >= 15 && line[14] == flag
    requires Slice(line, 6, 13) == PadRight(code, 7)
    requires Slice(line, 16, 76) == PadRight(shortDesc, 60)
    requires SliceFrom(line, 77) == longDesc + "\n"
    ensures ReadCodeLine(line) == Ok(OrderRecord(ProcessCode(code), shortDesc, longDesc, DigitValue(flag)))
  {
    StripPadRight(code, 7);
    StripPadRight(shortDesc, 60);
    StripNewline(longDesc);
    ReadStrippedColumns(line, code, flag, shortDesc, longDesc);
  }

  /** Reading a line laid out in the order-file columns gives back its fields, the code dotted. */
  lemma ReadOrderLine(orderNumber: string, code: string, flag: char, shortDesc: string, longDesc: string)
    requires |orderNumber| == 5 && 0 < |code| <= 7 && |shortDesc| <= 60
    requires Stripped(code) && Stripped(shortDesc) && Stripped(longDesc) && IsDigit(flag)
    ensures ReadCodeLine(OrderLine(orderNumber, code, flag, shortDesc, longDesc))
         == Ok(OrderRecord(ProcessCode(code), shortDesc, longDesc, DigitValue(flag)))
  {
    OrderLineColumns(orderNumber, code, flag, shortDesc, longDesc);
    ReadColumns(OrderLine(orderNumber, code, flag, shortDesc, longDesc), code, flag, shortDesc, longDesc);
  }
}
