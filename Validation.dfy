/** The static validation helpers and the import-line parser of LibraryManagementSystem.java. */
module Validation {
  import opened Wrappers
  import opened Strings
  import opened PatronRecord

  /** `\d` in a Java regular expression: an ASCII decimal digit. */
  predicate IsDigit(c: char) {
    '0' <= c <= '9'
  }

  /** Matches `\d*`, checked one character at a time. */
  function AllDigits(s: string): (r: bool)
    ensures r <==> forall k :: 0 <= k < |s| ==> IsDigit(s[k])
  {
    s == [] || (IsDigit(s[0]) && AllDigits(s[1..]))
  }

  /**
   * `isValidId`: the id is not null and the whole text matches `\d{7}` —
   * exactly seven ASCII digits, no sign, no blanks.
   */
  function IsValidId(id: Option<string>): (r: bool)
    ensures r <==> id.Some? && |id.value| == 7 && forall k :: 0 <= k < 7 ==> IsDigit(id.value[k])
  {
    id.Some? && |id.value| == 7 && AllDigits(id.value)
  }

  /** `isValidFine`: inside the inclusive range [0, 250]. */
  function IsValidFine(fine: real): (b: bool)
    ensures b ==> 0.0 <= fine <= 250.0
    ensures 0.0 <= fine <= 250.0 ==> b
  {
    fine >= 0.0 && fine <= 250.0
  }

  /** Both ends of the range are accepted. */
  lemma FineRangeInclusive()
    ensures IsValidFine(0.0) && IsValidFine(250.0)
  {
  }

  /**
   * `tryParseFine`: null, a text that trims to nothing, and a text holding a
   * `$` anywhere are refused before the number parser is consulted; anything
   * else is whatever the host parser (`Double.parseDouble`, here the
   * `parseNumber` parameter) makes of the trimmed text.
   */
  function TryParseFine(fineText: Option<string>, parseNumber: string -> Option<real>): (r: Option<real>)
    ensures fineText.None? ==> r.None?
    ensures fineText.Some? && Trim(fineText.value) == [] ==> r.None?
    ensures fineText.Some? && '$' in Trim(fineText.value) ==> r.None?
    ensures fineText.Some? && Trim(fineText.value) != [] && '$' !in Trim(fineText.value) ==>
      r == parseNumber(Trim(fineText.value))
  {
    match fineText
    case None => None
    case Some(text) =>
      var trimmed := Trim(text);
      if trimmed == [] then None
      else if '$' in trimmed then None
      else parseNumber(trimmed)
  }

  /**
   * Trimming cannot remove a `$`, so a `$` anywhere in the text refuses it,
   * whatever the host parser would have made of the text; a text that trims
   * to nothing is refused too.
   */
  lemma DollarOrBlankRejected(text: string, parseNumber: string -> Option<real>)
    requires '$' in text || forall k :: 0 <= k < |text| ==> IsTrimmable(text[k])
    ensures TryParseFine(Some(text), parseNumber) == None
  {
    TrimKeepsContent(text);
  }

  /**
   * What a stored record looks like when it comes through the parser: a valid
   * id, a non-empty trimmed name and address, and a fine in range.
   */
  predicate ValidPatron(p: Patron) {
    IsValidId(Some(p.id)) &&
    p.name != [] && Trim(p.name) == p.name &&
    p.address != [] && Trim(p.address) == p.address &&
    IsValidFine(p.overdueFine)
  }

  /**
   * `parsePatronLine`: `split("-", 4)`, exactly four fields required, each
   * field trimmed, then the id, name, address and fine checks in the order of
   * the source. Every record it returns is valid.
   */
  function ParsePatronLine(line: string, parseNumber: string -> Option<real>): (r: Option<Patron>)
    ensures r.Some? ==> ValidPatron(r.value)
  {
    var parts := SplitLimit(line, '-', 4);
    if |parts| != 4 then None
    else
      var id := Trim(parts[0]);
      var name := Trim(parts[1]);
      var address := Trim(parts[2]);
      var fineStr := Trim(parts[3]);
      if !IsValidId(Some(id)) then None
      else if name == [] then None
      else if address == [] then None
      else match TryParseFine(Some(fineStr), parseNumber)
        case None => None
        case Some(fine) =>
          if !IsValidFine(fine) then None
          else
            TrimIdempotent(parts[1]);
            TrimIdempotent(parts[2]);
            Some(Patron(id, name, address, fine))
  }

  /** A line with fewer than three dashes never yields a record. */
  lemma TooFewDashesRejected(line: string, parseNumber: string -> Option<real>)
    requires CountChar(line, '-') < 3
    ensures ParsePatronLine(line, parseNumber) == None
  {
    SplitLimitLength(line, '-', 4);
  }

  /**
   * The line for fields `a`, `b`, `c` free of dashes and a fine text `e`: the
   * record is made of the trimmed fields, with `e` whole as the fine text,
   * dashes and all, or the line is refused when one of the checks fails.
   */
  lemma ParseLineFields(a: string, b: string, c: string, e: string, parseNumber: string -> Option<real>)
    requires '-' !in a && '-' !in b && '-' !in c
    ensures var fine := TryParseFine(Some(e), parseNumber);
      ParsePatronLine(a + "-" + b + "-" + c + "-" + e, parseNumber) ==
        if IsValidId(Some(Trim(a))) && Trim(b) != [] && Trim(c) != [] && fine.Some? && IsValidFine(fine.value)
        then Some(Patron(Trim(a), Trim(b), Trim(c), fine.value))
        else None
  {
    SplitFourFields(a, b, c, e, '-');
    ParseSplitFields(a + "-" + b + "-" + c + "-" + e, a, b, c, e, parseNumber);
  }

  /** Whatever the split yields, the four fields are trimmed and checked in order. */
  lemma ParseSplitFields(line: string, a: string, b: string, c: string, e: string, parseNumber: string -> Option<real>)
    requires SplitLimit(line, '-', 4) == [a, b, c, e]
    ensures var fine := TryParseFine(Some(e), parseNumber);
      ParsePatronLine(line, parseNumber) ==
        if IsValidId(Some(Trim(a))) && Trim(b) != [] && Trim(c) != [] && fine.Some? && IsValidFine(fine.value)
        then Some(Patron(Trim(a), Trim(b), Trim(c), fine.value))
        else None
  {
    TryParseFineIgnoresTrim(e, parseNumber);
  }

  /** The fine field is trimmed before `tryParseFine` trims it again, which changes nothing. */
  lemma TryParseFineIgnoresTrim(text: string, parseNumber: string -> Option<real>)
    ensures TryParseFine(Some(Trim(text)), parseNumber) == TryParseFine(Some(text), parseNumber)
  {
    TrimIdempotent(text);
  }

  /** The import-file line of a patron: `ID-Name-Address-Fine`, with `fineText` spelling the fine. */
  function FormatLine(p: Patron, fineText: string): string {
    p.id + "-" + p.name + "-" + p.address + "-" + fineText
  }

  /** A valid id holds no dash and is its own trim. */
  lemma ValidIdIsField(id: string)
    requires IsValidId(Some(id))
    ensures '-' !in id && Trim(id) == id
  {
    assert forall k :: 0 <= k < |id| ==> id[k] != '-';
    TrimKeepsTrimmed(id);
  }

  /** A fine text that is already trimmed, not empty and free of `$` goes to the host parser as it is. */
  lemma TryParseFineTrimmedText(text: string, parseNumber: string -> Option<real>)
    requires Trim(text) == text && text != [] && '$' !in text
    ensures TryParseFine(Some(text), parseNumber) == parseNumber(text)
  {
  }

  /**
   * Round trip: a valid patron whose name and address hold no dash, written as
   * a line with a fine text the host parser reads back as its fine, parses to
   * that same patron.
   */
  lemma ParseFormatLine(p: Patron, fineText: string, parseNumber: string -> Option<real>)
    requires ValidPatron(p) && '-' !in p.name && '-' !in p.address
    requires Trim(fineText) == fineText && fineText != [] && '$' !in fineText
    requires parseNumber(fineText) == Some(p.overdueFine)
    ensures ParsePatronLine(FormatLine(p, fineText), parseNumber) == Some(p)
  {
    ValidIdIsField(p.id);
    TryParseFineTrimmedText(fineText, parseNumber);
    ParseLineFields(p.id, p.name, p.address, fineText, parseNumber);
  }

  /**
   * A dash inside the address does not stay in the address: the split stops
   * after the third dash, so a record, if any, has the address cut at that
   * dash and was read from the rest of the address joined to the fine text.
   */
  lemma AddressDashMovesToFineText(id: string, name: string, street: string, rest: string, fineText: string,
                                   parseNumber: string -> Option<real>)
    requires '-' !in id && '-' !in name && '-' !in street
    ensures var r := ParsePatronLine(id + "-" + name + "-" + street + "-" + rest + "-" + fineText, parseNumber);
      r.Some? ==> r.value.address == Trim(street) && parseNumber(Trim(rest + "-" + fineText)) == Some(r.value.overdueFine)
  {
    assert id + "-" + name + "-" + street + "-" + rest + "-" + fineText == id + "-" + name + "-" + street + "-" + (rest + "-" + fineText);
    ParseLineFields(id, name, street, rest + "-" + fineText, parseNumber);
    TrimIdempotent(rest + "-" + fineText);
  }

  /**
   * A line whose address is written `123-A-St`: the fine text
   * becomes `A-St-12.50`, and the line is refused whenever the host parser
   * refuses that text.
   */
  lemma AddressDashEndsInFineText(parseNumber: string -> Option<real>)
    requires parseNumber("A-St-12.50") == None
    ensures ParsePatronLine("1234567" + "-" + "John Doe" + "-" + "123" + "-" + "A-St-12.50", parseNumber) == None
  {
    assert IsValidId(Some("1234567"));
    TrimKeepsTrimmed("A-St-12.50");
    TryParseFineTrimmedText("A-St-12.50", parseNumber);
    ParseLineFields("1234567", "John Doe", "123", "A-St-12.50", parseNumber);
  }

  /**
   * An id field that is not seven characters long once trimmed (a six-digit id,
   * say) refuses the line, whatever its name, address and fine.
   */
  lemma WrongLengthIdRejected(a: string, b: string, c: string, e: string, parseNumber: string -> Option<real>)
    requires '-' !in a && '-' !in b && '-' !in c && |Trim(a)| != 7
    ensures ParsePatronLine(a + "-" + b + "-" + c + "-" + e, parseNumber) == None
  {
    ParseLineFields(a, b, c, e, parseNumber);
  }

  /**
   * The sample line `1234567-John Doe-123 Main St-12.50` is accepted whenever
   * the host parser reads `12.50` as 12.5.
   */
  lemma SampleLineAccepted(parseNumber: string -> Option<real>)
    requires parseNumber("12.50") == Some(12.5)
    ensures ParsePatronLine("1234567" + "-" + "John Doe" + "-" + "123 Main St" + "-" + "12.50", parseNumber) ==
      Some(Patron("1234567", "John Doe", "123 Main St", 12.5))
  {
    assert IsValidId(Some("1234567"));
    TrimKeepsTrimmed("1234567");
    TrimKeepsTrimmed("John Doe");
    TrimKeepsTrimmed("123 Main St");
    TrimKeepsTrimmed("12.50");
    TryParseFineTrimmedText("12.50", parseNumber);
    ParseLineFields("1234567", "John Doe", "123 Main St", "12.50", parseNumber);
  }
}
