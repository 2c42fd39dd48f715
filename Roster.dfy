/**
 * The patron roster of LibraryManagementSystem.java: an insertion-ordered map
 * from id to patron (a `LinkedHashMap`), modelled as the sequence of stored
 * records in insertion order, with the key of each entry being its record's id.
 */
module Roster {
  import opened Wrappers
  import opened Strings
  import opened PatronRecord
  import opened Validation

  /** Some record in `s` carries `id`. */
  predicate HasId(s: seq<Patron>, id: string) {
    exists k :: 0 <= k < |s| && s[k].id == id
  }

  /** No two records share an id: the map's key uniqueness. */
  predicate UniqueIds(s: seq<Patron>) {
    forall i, j :: 0 <= i < j < |s| ==> s[i].id != s[j].id
  }

  /** An id is in a non-empty sequence when it is its first record's or in the rest. */
  lemma HasIdTail(s: seq<Patron>, id: string)
    requires s != []
    ensures HasId(s, id) <==> s[0].id == id || HasId(s[1..], id)
  {
    assert forall j :: 0 <= j < |s[1..]| ==> s[1..][j] == s[j + 1];
    if HasId(s, id) && s[0].id != id {
      var k :| 0 <= k < |s| && s[k].id == id;
      assert s[1..][k - 1].id == id;
    }
  }

  /** The rest of a sequence with unique ids has unique ids and lacks the first record's id. */
  lemma UniqueIdsTail(s: seq<Patron>)
    requires s != [] && UniqueIds(s)
    ensures UniqueIds(s[1..]) && !HasId(s[1..], s[0].id)
  {
    assert forall j :: 0 <= j < |s[1..]| ==> s[1..][j] == s[j + 1];
    assert forall j :: 0 <= j < |s[1..]| ==> s[1..][j].id != s[0].id;
  }

  /** The key set of the map. */
  function IdSet(s: seq<Patron>): (ids: set<string>)
    ensures forall id :: id in ids <==> HasId(s, id)
  {
    if s == [] then {}
    else
      var ids := {s[0].id} + IdSet(s[1..]);
      assert forall id :: HasId(s, id) <==> s[0].id == id || HasId(s[1..], id) by {
        forall id ensures HasId(s, id) <==> s[0].id == id || HasId(s[1..], id) {
          HasIdTail(s, id);
        }
      }
      ids
  }

  /** With unique ids the map holds one entry per record: its size is the number of keys. */
  lemma {:induction false} UniqueIdsCount(s: seq<Patron>)
    requires UniqueIds(s)
    ensures |IdSet(s)| == |s|
  {
    if s != [] {
      UniqueIdsTail(s);
      UniqueIdsCount(s[1..]);
    }
  }

  /** The records left after `remove(id)`: every record but the one with that id, in their order. */
  function Without(s: seq<Patron>, id: string): (r: seq<Patron>)
    ensures |r| <= |s|
    ensures !HasId(r, id)
    ensures forall p :: p in r ==> p in s
  {
    if s == [] then []
    else if s[0].id == id then Without(s[1..], id)
    else
      var rest := Without(s[1..], id);
      assert forall p :: p in [s[0]] + rest ==> p == s[0] || p in rest;
      [s[0]] + rest
  }

  /** Removing an id that is not there changes nothing. */
  lemma {:induction false} WithoutAbsent(s: seq<Patron>, id: string)
    requires !HasId(s, id)
    ensures Without(s, id) == s
  {
    if s != [] {
      HasIdTail(s, id);
      WithoutAbsent(s[1..], id);
      assert s == [s[0]] + s[1..];
    }
  }

  /** Removing the id of the record at `k` takes out that record alone and keeps the others in order. */
  lemma {:induction false} WithoutSplice(s: seq<Patron>, id: string, k: nat)
    requires UniqueIds(s) && k < |s| && s[k].id == id
    ensures Without(s, id) == s[..k] + s[k + 1..]
  {
    UniqueIdsTail(s);
    if k == 0 {
      WithoutAbsent(s[1..], id);
    } else {
      WithoutSplice(s[1..], id, k - 1);
      assert s[..k] == [s[0]] + s[1..][..k - 1];
      assert s[k + 1..] == s[1..][k..];
    }
  }

  /** Taking one record out of a sequence with unique ids leaves unique ids. */
  lemma SpliceUnique(s: seq<Patron>, k: nat)
    requires UniqueIds(s) && k < |s|
    ensures UniqueIds(s[..k] + s[k + 1..])
  {
    var r := s[..k] + s[k + 1..];
    forall i, j | 0 <= i < j < |r| ensures r[i].id != r[j].id {
      var i' := if i < k then i else i + 1;
      var j' := if j < k then j else j + 1;
      assert r[i] == s[i'] && r[j] == s[j'];
    }
  }

  /**
   * `removePatronById`'s effect on the stored sequence: the id is gone, one
   * record fewer exactly when it was there, nothing else removed or reordered,
   * and the ids stay unique.
   */
  lemma RemoveById(s: seq<Patron>, id: string)
    requires UniqueIds(s)
    ensures UniqueIds(Without(s, id))
    ensures |Without(s, id)| == if HasId(s, id) then |s| - 1 else |s|
    ensures forall k :: 0 <= k < |s| && s[k].id == id ==> Without(s, id) == s[..k] + s[k + 1..]
    ensures !HasId(s, id) ==> Without(s, id) == s
  {
    if HasId(s, id) {
      var k :| 0 <= k < |s| && s[k].id == id;
      WithoutSplice(s, id, k);
      SpliceUnique(s, k);
      forall k' | 0 <= k' < |s| && s[k'].id == id ensures Without(s, id) == s[..k'] + s[k' + 1..] {
        WithoutSplice(s, id, k');
      }
    } else {
      WithoutAbsent(s, id);
    }
  }

  /** `addPatron` on a store without that id: the ids stay unique. */
  lemma AppendFresh(s: seq<Patron>, p: Patron)
    requires UniqueIds(s) && !HasId(s, p.id)
    ensures UniqueIds(s + [p]) && HasId(s + [p], p.id)
  {
    var r := s + [p];
    assert r[|s|].id == p.id;
    forall i, j | 0 <= i < j < |r| ensures r[i].id != r[j].id {
      if j == |s| {
        assert r[i] == s[i];
      } else {
        assert r[i] == s[i] && r[j] == s[j];
      }
    }
  }

  /** The one record appended after `s` is valid when it is. */
  lemma AppendValid(s: seq<Patron>, p: Patron)
    requires ValidPatron(p)
    ensures forall k :: |s| <= k < |s + [p]| ==> ValidPatron((s + [p])[k])
  {
  }

  /** What one import run leaves behind: the store and the two counters. */
  datatype ImportState = ImportState(patrons: seq<Patron>, added: nat, skipped: nat)

  /**
   * The import below is stated for any line parser; `loadPatronsFromFile`
   * uses `parsePatronLine` (see `PatronLineParser`).
   */
  ghost predicate YieldsValidPatrons(parseLine: string -> Option<Patron>) {
    forall line :: parseLine(line).Some? ==> ValidPatron(parseLine(line).value)
  }

  /** `parsePatronLine` with the host's number parser fixed. */
  function PatronLineParser(parseNumber: string -> Option<real>): (parseLine: string -> Option<Patron>)
    ensures YieldsValidPatrons(parseLine)
  {
    line => ParsePatronLine(line, parseNumber)
  }

  /**
   * One line of `loadPatronsFromFile`: a blank line is passed over, a line the
   * parser refuses and a line whose id is already stored are counted as
   * skipped, and any other line's record is appended and counted as added.
   */
  function ImportLine(st: ImportState, line: string, parseLine: string -> Option<Patron>): (r: ImportState)
    ensures r.added + r.skipped == st.added + st.skipped + (if Trim(line) == [] then 0 else 1)
    ensures st.added <= r.added && |r.patrons| == |st.patrons| + r.added - st.added
    ensures r.patrons[..|st.patrons|] == st.patrons
  {
    var trimmed := Trim(line);
    if trimmed == [] then st else StoreParsed(st, parseLine(trimmed))
  }

  /**
   * What a non-blank line's parse result does: a refused line and a record
   * whose id is already stored are counted as skipped, any other record is
   * appended and counted as added.
   */
  function StoreParsed(st: ImportState, parsed: Option<Patron>): (r: ImportState)
    ensures r.added + r.skipped == st.added + st.skipped + 1
    ensures || (r.added == st.added && r.patrons == st.patrons)
            || (&& r.added == st.added + 1 && parsed.Some? && !HasId(st.patrons, parsed.value.id)
                && r.patrons == st.patrons + [parsed.value])
    ensures parsed.Some? && !HasId(st.patrons, parsed.value.id) ==>
      r == ImportState(st.patrons + [parsed.value], st.added + 1, st.skipped)
  {
    match parsed
    case None => st.(skipped := st.skipped + 1)
    case Some(p) =>
      if HasId(st.patrons, p.id) then st.(skipped := st.skipped + 1)
      else ImportState(st.patrons + [p], st.added + 1, st.skipped)
  }

  /**
   * One line's effect, beyond `ImportLine`'s contract: neither counter falls,
   * `added` rises by at most one, so the store gains at most one record, and
   * that record's id is fresh.
   */
  lemma ImportLineOutcome(st: ImportState, line: string, parseLine: string -> Option<Patron>)
    requires UniqueIds(st.patrons)
    ensures var r := ImportLine(st, line, parseLine);
      && r.added <= st.added + 1 && st.skipped <= r.skipped
      && UniqueIds(r.patrons)
  {
    var trimmed := Trim(line);
    if trimmed != [] && parseLine(trimmed).Some? && !HasId(st.patrons, parseLine(trimmed).value.id) {
      var p := parseLine(trimmed).value;
      AppendFresh(st.patrons, p);
      assert (st.patrons + [p])[..|st.patrons|] == st.patrons;
    }
  }

  /** The lines read, in order, starting from the store `s` and both counters at zero. */
  function ImportLines(s: seq<Patron>, lines: seq<string>, parseLine: string -> Option<Patron>): (r: ImportState)
    ensures r.added + r.skipped == NonBlankCount(lines)
    ensures |r.patrons| == |s| + r.added
    ensures r.patrons[..|s|] == s
  {
    if lines == [] then ImportState(s, 0, 0)
    else
      var before := ImportLines(s, lines[..|lines| - 1], parseLine);
      var r := ImportLine(before, lines[|lines| - 1], parseLine);
      assert r.patrons[..|s|] == r.patrons[..|before.patrons|][..|s|];
      r
  }

  /** Reading one more line is one more import step. */
  lemma ImportLinesStep(s: seq<Patron>, lines: seq<string>, i: nat, parseLine: string -> Option<Patron>)
    requires i < |lines|
    ensures ImportLines(s, lines[..i + 1], parseLine) == ImportLine(ImportLines(s, lines[..i], parseLine), lines[i], parseLine)
  {
    assert lines[..i + 1][..i] == lines[..i];
  }

  /** Number of lines that are not blank once trimmed. */
  function NonBlankCount(lines: seq<string>): (n: nat)
    ensures n <= |lines|
  {
    if lines == [] then 0
    else NonBlankCount(lines[..|lines| - 1]) + (if Trim(lines[|lines| - 1]) == [] then 0 else 1)
  }

  /**
   * After an import the ids are still unique; the counting and the order of
   * the store are `ImportLines`'s own contract.
   */
  lemma {:induction false} ImportOutcome(s: seq<Patron>, lines: seq<string>, parseLine: string -> Option<Patron>)
    requires UniqueIds(s)
    ensures UniqueIds(ImportLines(s, lines, parseLine).patrons)
  {
    if lines != [] {
      var init := lines[..|lines| - 1];
      ImportOutcome(s, init, parseLine);
      ImportLineOutcome(ImportLines(s, init, parseLine), lines[|lines| - 1], parseLine);
    }
  }

  /** Every record an import appends came out of the parser, so it is a valid one. */
  lemma {:induction false} ImportAppendsValid(s: seq<Patron>, lines: seq<string>, parseLine: string -> Option<Patron>)
    requires YieldsValidPatrons(parseLine)
    ensures var r := ImportLines(s, lines, parseLine).patrons;
      |s| <= |r| && forall k :: |s| <= k < |r| ==> ValidPatron(r[k])
  {
    if lines != [] {
      var init := lines[..|lines| - 1];
      ImportAppendsValid(s, init, parseLine);
      var st := ImportLines(s, init, parseLine);
      var r := ImportLines(s, lines, parseLine).patrons;
      var trimmed := Trim(lines[|lines| - 1]);
      if trimmed != [] && parseLine(trimmed).Some? && !HasId(st.patrons, parseLine(trimmed).value.id) {
        var p := parseLine(trimmed).value;
        assert r == st.patrons + [p];
        assert ValidPatron(p);
        AppendValid(st.patrons, p);
      } else {
        assert r == st.patrons;
      }
    }
  }

  /**
   * No overwrite: a record stored before the import is still stored, at its
   * place, and no other record in the result carries its id — whether the
   * duplicate line names a record from before or one added earlier in the
   * same run.
   */
  lemma ImportNeverOverwrites(s: seq<Patron>, lines: seq<string>, parseLine: string -> Option<Patron>, k: nat)
    requires UniqueIds(s) && k < |s|
    ensures var r := ImportLines(s, lines, parseLine).patrons;
      k < |r| && r[k] == s[k] && forall j :: 0 <= j < |r| && j != k ==> r[j].id != s[k].id
  {
    ImportOutcome(s, lines, parseLine);
    var r := ImportLines(s, lines, parseLine).patrons;
    assert r[k] == r[..|s|][k];
  }

  /** An import step only appends: an id stored before it is stored after it. */
  lemma ImportLineKeepsIds(st: ImportState, line: string, parseLine: string -> Option<Patron>, id: string)
    requires HasId(st.patrons, id)
    ensures HasId(ImportLine(st, line, parseLine).patrons, id)
  {
    var k :| 0 <= k < |st.patrons| && st.patrons[k].id == id;
    var r := ImportLine(st, line, parseLine).patrons;
    assert r == st.patrons || r == st.patrons + [parseLine(Trim(line)).value];
    assert r[k] == st.patrons[k];
  }

  /** An id stored before an import is stored after it. */
  lemma {:induction false} ImportKeepsIds(s: seq<Patron>, lines: seq<string>, parseLine: string -> Option<Patron>, id: string)
    requires HasId(s, id)
    ensures HasId(ImportLines(s, lines, parseLine).patrons, id)
  {
    if lines != [] {
      ImportKeepsIds(s, lines[..|lines| - 1], parseLine, id);
      ImportLineKeepsIds(ImportLines(s, lines[..|lines| - 1], parseLine), lines[|lines| - 1], parseLine, id);
    }
  }

  /** After an import step on a non-blank line that parses, that line's id is stored. */
  lemma ImportLineStoresId(st: ImportState, line: string, parseLine: string -> Option<Patron>)
    requires Trim(line) != [] && parseLine(Trim(line)).Some?
    ensures HasId(ImportLine(st, line, parseLine).patrons, parseLine(Trim(line)).value.id)
  {
    var p := parseLine(Trim(line)).value;
    if !HasId(st.patrons, p.id) {
      var r := ImportLine(st, line, parseLine).patrons;
      assert r == st.patrons + [p];
      assert r[|st.patrons|].id == p.id;
    }
  }

  /** After a non-blank line that parses, its id is stored: added by it, or there already. */
  lemma {:induction false} ImportStoresParsedIds(s: seq<Patron>, lines: seq<string>, parseLine: string -> Option<Patron>, j: nat)
    requires j < |lines| && Trim(lines[j]) != [] && parseLine(Trim(lines[j])).Some?
    ensures HasId(ImportLines(s, lines, parseLine).patrons, parseLine(Trim(lines[j])).value.id)
  {
    var init := lines[..|lines| - 1];
    var st := ImportLines(s, init, parseLine);
    if j < |lines| - 1 {
      assert init[j] == lines[j];
      ImportStoresParsedIds(s, init, parseLine, j);
      ImportLineKeepsIds(st, lines[|lines| - 1], parseLine, parseLine(Trim(lines[j])).value.id);
    } else {
      ImportLineStoresId(st, lines[j], parseLine);
    }
  }

  /**
   * A line whose id is already stored — from before the import, or by an
   * earlier line of the same import — is counted as skipped and changes no
   * record.
   */
  lemma DuplicateLineSkipped(s: seq<Patron>, lines: seq<string>, line: string, parseLine: string -> Option<Patron>, j: nat)
    requires Trim(line) != [] && parseLine(Trim(line)).Some?
    requires var id := parseLine(Trim(line)).value.id;
      HasId(s, id) ||
      (j < |lines| && Trim(lines[j]) != [] && parseLine(Trim(lines[j])).Some? && parseLine(Trim(lines[j])).value.id == id)
    ensures var before := ImportLines(s, lines, parseLine);
      ImportLines(s, lines + [line], parseLine) == before.(skipped := before.skipped + 1)
  {
    var id := parseLine(Trim(line)).value.id;
    if HasId(s, id) {
      ImportKeepsIds(s, lines, parseLine, id);
    } else {
      ImportStoresParsedIds(s, lines, parseLine, j);
    }
    assert (lines + [line])[..|lines|] == lines;
    assert ImportLines(s, lines + [line], parseLine) == ImportLine(ImportLines(s, lines, parseLine), line, parseLine);
  }

  /**
   * A non-blank line whose record has an id not stored when the line is read
   * is appended and counted as added.
   */
  lemma FreshLineAdded(s: seq<Patron>, lines: seq<string>, line: string, parseLine: string -> Option<Patron>)
    requires Trim(line) != [] && parseLine(Trim(line)).Some?
    requires !HasId(ImportLines(s, lines, parseLine).patrons, parseLine(Trim(line)).value.id)
    ensures var before := ImportLines(s, lines, parseLine);
      ImportLines(s, lines + [line], parseLine)
        == ImportState(before.patrons + [parseLine(Trim(line)).value], before.added + 1, before.skipped)
  {
    assert (lines + [line])[..|lines|] == lines;
  }

  /** `line` is non-blank and parses to a record with id `id`. */
  predicate ParsesToId(line: string, parseLine: string -> Option<Patron>, id: string) {
    Trim(line) != [] && parseLine(Trim(line)).Some? && parseLine(Trim(line)).value.id == id
  }

  /** An id stored after an import step was stored before it, or is the id the line parses to. */
  lemma ImportLineIdsFrom(st: ImportState, line: string, parseLine: string -> Option<Patron>, id: string)
    requires HasId(ImportLine(st, line, parseLine).patrons, id)
    ensures HasId(st.patrons, id) || ParsesToId(line, parseLine, id)
  {
    var r := ImportLine(st, line, parseLine).patrons;
    var k :| 0 <= k < |r| && r[k].id == id;
    if k < |st.patrons| {
      assert r[k] == st.patrons[k];
    }
  }

  /**
   * The converse of `ImportKeepsIds` and `ImportStoresParsedIds`: every id
   * stored after an import was stored before it or is the id some non-blank
   * line parses to.
   */
  lemma {:induction false} ImportIdsFromLines(s: seq<Patron>, lines: seq<string>, parseLine: string -> Option<Patron>, id: string)
    ensures HasId(ImportLines(s, lines, parseLine).patrons, id) ==>
      HasId(s, id) || exists j :: 0 <= j < |lines| && ParsesToId(lines[j], parseLine, id)
  {
    if lines != [] && HasId(ImportLines(s, lines, parseLine).patrons, id) {
      var init := lines[..|lines| - 1];
      var st := ImportLines(s, init, parseLine);
      ImportLineIdsFrom(st, lines[|lines| - 1], parseLine, id);
      if HasId(st.patrons, id) {
        ImportIdsFromLines(s, init, parseLine, id);
        if !HasId(s, id) {
          var j :| 0 <= j < |init| && ParsesToId(init[j], parseLine, id);
          assert lines[j] == init[j];
        }
      } else {
        assert ParsesToId(lines[|lines| - 1], parseLine, id);
      }
    }
  }

  /**
   * `FreshLineAdded` stated on the inputs: a non-blank line whose parsed id
   * is neither in the old store nor the id of an earlier line is appended and
   * counted as added.
   */
  lemma FreshInputLineAdded(s: seq<Patron>, lines: seq<string>, line: string, parseLine: string -> Option<Patron>)
    requires Trim(line) != [] && parseLine(Trim(line)).Some?
    requires !HasId(s, parseLine(Trim(line)).value.id)
    requires forall j :: 0 <= j < |lines| ==> !ParsesToId(lines[j], parseLine, parseLine(Trim(line)).value.id)
    ensures var before := ImportLines(s, lines, parseLine);
      ImportLines(s, lines + [line], parseLine)
        == ImportState(before.patrons + [parseLine(Trim(line)).value], before.added + 1, before.skipped)
  {
    var id := parseLine(Trim(line)).value.id;
    if HasId(ImportLines(s, lines, parseLine).patrons, id) {
      ImportIdsFromLines(s, lines, parseLine, id);
      assert false;
    }
    FreshLineAdded(s, lines, line, parseLine);
  }

  /** The outcome of `loadPatronsFromFile`; `errorMessage` is `None` after a complete read. */
  datatype ImportResult = ImportResult(added: int, skipped: int, errorMessage: Option<string>) {
    /** `hasError`: the import failed exactly when it carries a message; a null message means success. */
    function HasError(): (b: bool)
      ensures b <==> errorMessage != None
    {
      errorMessage.Some?
    }
  }

  /**
   * What reading the file yields: the lines delivered before the reader stopped,
   * and the message of the `IOException` that stopped it, if any (a file that
   * cannot be opened delivers no line and an error).
   */
  datatype FileContents = FileContents(lines: seq<string>, readError: Option<string>)

  /** The library: the roster and its operations. */
  class LibraryManagementSystem {
    /** The stored records in insertion order. */
    var patrons: seq<Patron>

    ghost predicate Valid()
      reads this
    {
      UniqueIds(patrons)
    }

    constructor ()
      ensures Valid() && patrons == []
    {
      patrons := [];
    }

    /** `patronIdExists`: the key is present. */
    function PatronIdExists(id: string): (b: bool)
      reads this
      ensures b <==> id in IdSet(patrons)
    {
      HasId(patrons, id)
    }

    /** `getPatronCount`: the size of the map, that is, the number of distinct ids stored. */
    function PatronCount(): (n: nat)
      reads this
      requires Valid()
      ensures n == |IdSet(patrons)|
    {
      UniqueIdsCount(patrons);
      |patrons|
    }

    /** `addPatron`: refuses an id already present, otherwise appends the record at the end. */
    method AddPatron(p: Patron) returns (added: bool)
      requires Valid()
      modifies this
      ensures Valid()
      ensures added <==> !old(HasId(patrons, p.id))
      ensures patrons == if added then old(patrons) + [p] else old(patrons)
      ensures |patrons| == old(|patrons|) + (if added then 1 else 0)
      ensures PatronIdExists(p.id)
    {
      if PatronIdExists(p.id) {
        return false;
      }
      AppendFresh(patrons, p);
      patrons := patrons + [p];
      return true;
    }

    /** `removePatronById`: true exactly when the id was present; afterwards it is absent. */
    method RemovePatronById(id: string) returns (removed: bool)
      requires Valid()
      modifies this
      ensures Valid()
      ensures removed <==> old(HasId(patrons, id))
      ensures patrons == Without(old(patrons), id)
      ensures !PatronIdExists(id)
      ensures |patrons| == old(|patrons|) - (if removed then 1 else 0)
    {
      RemoveById(patrons, id);
      removed := HasId(patrons, id);
      patrons := Without(patrons, id);
    }

    /**
     * The body of the read loop of `loadPatronsFromFile` for one line, with the
     * two counters passed through: trim, pass over a blank line, otherwise
     * parse and store.
     */
    method LoadLine(rawLine: string, parseNumber: string -> Option<real>, added: nat, skipped: nat)
      returns (added': nat, skipped': nat)
      requires Valid()
      modifies this
      ensures Valid()
      ensures ImportState(patrons, added', skipped') ==
        ImportLine(ImportState(old(patrons), added, skipped), rawLine, PatronLineParser(parseNumber))
    {
      var line := Trim(rawLine);
      if line == [] {
        return added, skipped;
      }
      var parsed := ParsePatronLine(line, parseNumber);
      assert PatronLineParser(parseNumber)(line) == parsed;
      added', skipped' := StoreRecord(parsed, added, skipped);
    }

    /**
     * A parsed line's outcome: a refused line or a duplicate id is counted as
     * skipped, any other record is inserted and counted as added.
     */
    method StoreRecord(parsed: Option<Patron>, added: nat, skipped: nat) returns (added': nat, skipped': nat)
      requires Valid()
      modifies this
      ensures Valid()
      ensures ImportState(patrons, added', skipped') == StoreParsed(ImportState(old(patrons), added, skipped), parsed)
    {
      added', skipped' := added, skipped;
      match parsed {
        case None =>
          skipped' := skipped' + 1;
        case Some(p) =>
          if PatronIdExists(p.id) {
            skipped' := skipped' + 1;
          } else {
            var _ := AddPatron(p);
            added' := added' + 1;
          }
      }
    }

    /**
     * `loadPatronsFromFile`, line by line: the store ends as the import of the
     * delivered lines leaves it. A read error reports zero counts and its
     * message, but the records already inserted stay.
     */
    method LoadPatronsFromFile(file: FileContents, parseNumber: string -> Option<real>) returns (result: ImportResult)
      requires Valid()
      modifies this
      ensures Valid()
      ensures patrons == ImportLines(old(patrons), file.lines, PatronLineParser(parseNumber)).patrons
      ensures file.readError.Some? ==> result == ImportResult(0, 0, Some("File error: " + file.readError.value))
      ensures file.readError.None? ==>
        var st := ImportLines(old(patrons), file.lines, PatronLineParser(parseNumber));
        result == ImportResult(st.added, st.skipped, None)
      ensures result.HasError() <==> file.readError.Some?
      ensures file.readError.None? ==>
        && result.added + result.skipped == NonBlankCount(file.lines)
        && |patrons| == old(|patrons|) + result.added
      ensures old(|patrons|) <= |patrons| && patrons[..old(|patrons|)] == old(patrons)
    {
      ImportOutcome(patrons, file.lines, PatronLineParser(parseNumber));
      var added, skipped := 0, 0;
      var i := 0;
      while i < |file.lines|
        invariant 0 <= i <= |file.lines|
        invariant Valid()
        invariant ImportLines(old(patrons), file.lines[..i], PatronLineParser(parseNumber)) == ImportState(patrons, added, skipped)
      {
        ImportLinesStep(old(patrons), file.lines, i, PatronLineParser(parseNumber));
        added, skipped := LoadLine(file.lines[i], parseNumber, added, skipped);
        i := i + 1;
      }
      assert file.lines[..i] == file.lines;
      if file.readError.Some? {
        return ImportResult(0, 0, Some("File error: " + file.readError.value));
      }
      return ImportResult(added, skipped, None);
    }
  }
}
