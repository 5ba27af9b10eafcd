/**
 * `clean_proficiency` of backend/convert_excel_to_json.py: the proficiency
 * level read from a spreadsheet cell is the first character of the cell's
 * text, once surrounding whitespace is stripped, when that character is a
 * digit, and 0 in every other case.
 */
module ExcelImport {
  import opened Text

  /** A spreadsheet cell as pandas reads it: missing (NaN), text, or a whole number. */
  datatype ExcelCell = Missing | TextCell(text: string) | NumberCell(number: int)

  /** `str(val)` of a present cell. */
  function CellString(val: ExcelCell): (s: string)
    requires !val.Missing?
    ensures val.TextCell? ==> s == val.text
    ensures val.NumberCell? ==> |s| >= 1 && (IsDigit(s[0]) <==> val.number >= 0)
    ensures val.NumberCell? ==> s == IntToString(val.number)
  {
    match val
    case TextCell(s) => s
    case NumberCell(n) => IntToString(n)
  }

  /** The proficiency level of a cell: always a single digit's value. */
  function CleanProficiency(val: ExcelCell): (level: nat)
    ensures level <= 9
    ensures val.Missing? ==> level == 0
  {
    if val.Missing? then 0
    else
      var s := Strip(CellString(val));
      if |s| > 0 && IsDigit(s[0]) then DigitValue(s[0]) else 0
  }

  /** Text whose first non-space character is a digit gives that digit's value; the rest is ignored. */
  lemma CleanProficiencyReadsFirstDigit(s: string, k: nat)
    requires k < |s| && IsDigit(s[k])
    requires forall i :: 0 <= i < k ==> IsSpace(s[i])
    ensures CleanProficiency(TextCell(s)) == DigitValue(s[k])
  {
    StripFirst(s, k);
  }

  /** Text whose first non-space character is not a digit gives 0. */
  lemma CleanProficiencyNonDigit(s: string, k: nat)
    requires k < |s| && !IsSpace(s[k]) && !IsDigit(s[k])
    requires forall i :: 0 <= i < k ==> IsSpace(s[i])
    ensures CleanProficiency(TextCell(s)) == 0
  {
    StripFirst(s, k);
  }

  /** Empty or all-blank text gives 0. */
  lemma CleanProficiencyBlank(s: string)
    requires forall i :: 0 <= i < |s| ==> IsSpace(s[i])
    ensures CleanProficiency(TextCell(s)) == 0
  {
  }

  /** A whole number gives its leading decimal digit, and a negative one gives 0 (its sign comes first). */
  lemma CleanProficiencyNumber(n: int)
    ensures CleanProficiency(NumberCell(n)) == if n >= 0 then LeadingDigit(n) else 0
  {
    var s := IntToString(n);
    StripFirst(s, 0);
    if n >= 0 {
      NatToStringStartsWithLeadingDigit(n);
    }
  }

  /** Writing a cleaned level back as a number and cleaning it again gives the same level. */
  lemma CleanProficiencyIdempotent(val: ExcelCell)
    ensures CleanProficiency(NumberCell(CleanProficiency(val))) == CleanProficiency(val)
  {
    CleanProficiencyNumber(CleanProficiency(val));
  }

  /** "4-Expert" gives 4, " 3 " gives 3, "12" gives 1; "Expert" and "" give 0. */
  lemma CleanProficiencyExamples()
    ensures CleanProficiency(TextCell("4-Expert")) == 4
    ensures CleanProficiency(TextCell(" 3 ")) == 3
    ensures CleanProficiency(TextCell("12")) == 1
    ensures CleanProficiency(TextCell("Expert")) == 0
    ensures CleanProficiency(TextCell("")) == 0
  {
    CleanProficiencyReadsFirstDigit("4-Expert", 0);
    CleanProficiencyReadsFirstDigit(" 3 ", 1);
    CleanProficiencyReadsFirstDigit("12", 0);
    CleanProficiencyNonDigit("Expert", 0);
    CleanProficiencyBlank("");
  }
}
