# LibraryManagementSystem — a Dafny model of the patron roster

The Java program keeps library patrons in an insertion-ordered map from a
seven-digit id to an immutable `Patron` record (id, name, address, overdue
fine). It can add a patron, refusing an id that is already present. It can
remove a patron by id, and it can bulk-import patrons from a dash-separated
text file (`ID-Name-Address-Fine`). This project models that core:

- `Wrappers` — `Option`, standing for Java's `null`.
- `PatronRecord` — the `Patron` record as a datatype, and its display line.
  The `%.2f` rendering of the fine is the parameter `formatFine`.
- `Strings` — the parts of `java.lang.String` the core relies on:
  - `trim()`, which strips characters up to U+0020;
  - `split(d, limit)` with a positive limit, defined one character at a time;
  - its inverse `JoinWith`;
  - counting a character.
- `Validation` — `isValidId`, `isValidFine`, `tryParseFine` and
  `parsePatronLine`. `Double.parseDouble` is the parameter
  `parseNumber: string -> Option<real>`, whose `None` is the
  `NumberFormatException`.
- `Roster`:
  - the class `LibraryManagementSystem`, whose `patrons` field is the map's
    entries in insertion order, with the invariant that ids are unique;
  - its methods `AddPatron`, `RemovePatronById` and `LoadPatronsFromFile`. The
    last is a `while` loop over the file's lines that updates the two counters
    and the store.
  - The loop is proved against the specification function `ImportLines`, a fold
    of `ImportLine` over the lines. The counting, ordering, uniqueness and
    no-overwrite properties are proved about that function, for any line
    parser.

Both `LinkedHashMap.remove` and `put` of a fresh key keep the remaining
entries in insertion order. A sequence of records therefore represents the
map exactly, with each record's id as its key.

The comment at LibraryManagementSystem/src/LibraryManagementSystem.java:110
says that `split("-", 4)` lets addresses contain dashes. The code does not do
that:
- the split stops at the third dash, so the text after a dash inside the
  address is glued onto the fine field;
- for example, `1234567-John Doe-123-A-St-12.50` gives address `123` and fine
  text `A-St-12.50`, and the line is refused unless the number parser accepts
  that text.

The model follows the code. `AddressDashMovesToFineText` and
`AddressDashEndsInFineText` prove this behaviour.

## Model

| member | source | states |
|---|---|---|
| PatronRecord.Patron | LibraryManagementSystem/src/Patron.java:1-28 | the record: four final fields set once by the constructor and read back by the getters, so a datatype value; the id is text |
| PatronRecord.ConstructorStoresVerbatim | LibraryManagementSystem/src/Patron.java:2-28 | the record keeps its four arguments verbatim, with no validation; an id with leading zeros ("0012345") comes back unchanged |
| PatronRecord.ToFormattedString | LibraryManagementSystem/src/Patron.java:30-33 | the display line is, in order, "ID: ", the id, the Name label, the name, the Address label, the address, then the "Fine: $" label and the rendered fine; its length is that of the labels plus the fields |
| PatronRecord.FormattedStringShowsId | LibraryManagementSystem/src/Patron.java:30-33 | two patrons with different ids of the same length never get the same display line |
| Strings.TrimStart | LibraryManagementSystem/src/LibraryManagementSystem.java:58 | the result is a suffix of the input; every character dropped is at most ' ', and the first one kept is not |
| Strings.TrimEnd | LibraryManagementSystem/src/LibraryManagementSystem.java:58 | the result is a prefix of the input; every character dropped is at most ' ', and the last one kept is not |
| Strings.Trim | LibraryManagementSystem/src/LibraryManagementSystem.java:116-119 | `trim()` is never longer than its input, and starts and ends with characters above ' ' |
| Strings.TrimIsInfix | LibraryManagementSystem/src/LibraryManagementSystem.java:116-119 | `trim()` returns one contiguous stretch of its input, and every character before and after that stretch is at most ' ' |
| Strings.TrimKeepsContent | LibraryManagementSystem/src/LibraryManagementSystem.java:95-99 | trimming keeps exactly the characters above ' ' that the text holds (so it cannot remove a `$`), and is empty exactly when the text is all blanks |
| Strings.TrimKeepsTrimmed | LibraryManagementSystem/src/LibraryManagementSystem.java:116-119 | a text without blanks at either end is its own trim |
| Strings.TrimIdempotent | LibraryManagementSystem/src/LibraryManagementSystem.java:119 | trimming twice (the fine field, then `tryParseFine`) is trimming once |
| Strings.CountChar | LibraryManagementSystem/src/LibraryManagementSystem.java:113 | the count of a character is at most the length, and zero exactly when it does not occur |
| Strings.SplitLimit | LibraryManagementSystem/src/LibraryManagementSystem.java:113 | `split(d, limit)` yields between 1 and `limit` fields |
| Strings.SplitLimitJoins | LibraryManagementSystem/src/LibraryManagementSystem.java:113 | the fields joined back with the delimiter give the input: nothing is lost, trailing empty fields included |
| Strings.SplitLimitFields | LibraryManagementSystem/src/LibraryManagementSystem.java:113 | no field but the last holds the delimiter, and the last holds none when fewer than `limit` fields come out |
| Strings.SplitLimitLength | LibraryManagementSystem/src/LibraryManagementSystem.java:113-114 | the number of fields is one more than the number of delimiters, capped at the limit |
| Strings.SplitFirstField | LibraryManagementSystem/src/LibraryManagementSystem.java:113 | a first field free of the delimiter is split off whole, and the rest is split with the limit lowered by one |
| Strings.SplitFourFields | LibraryManagementSystem/src/LibraryManagementSystem.java:113 | `a-b-c-e` with dash-free `a`, `b`, `c` splits into exactly those four fields; `e` keeps any dashes |
| Validation.AllDigits | LibraryManagementSystem/src/LibraryManagementSystem.java:86 | true exactly when every character is an ASCII digit |
| Validation.IsValidId | LibraryManagementSystem/src/LibraryManagementSystem.java:85-87 | true exactly when the id is not null, has length 7 and every character is '0'..'9' |
| Validation.IsValidFine | LibraryManagementSystem/src/LibraryManagementSystem.java:89-91 | true exactly when 0 <= fine <= 250 |
| Validation.FineRangeInclusive | LibraryManagementSystem/src/LibraryManagementSystem.java:89-91 | both ends of the range, 0 and 250, are valid fines |
| Validation.TryParseFine | LibraryManagementSystem/src/LibraryManagementSystem.java:93-106 | null, a text blank after trimming and a trimmed text containing `$` give null, before the number parser is consulted; any other text gives what the parser makes of the trimmed text |
| Validation.DollarOrBlankRejected | LibraryManagementSystem/src/LibraryManagementSystem.java:95-99 | a `$` anywhere in the raw text, or a text made of blanks only, is refused whatever the number parser would accept |
| Validation.TryParseFineTrimmedText | LibraryManagementSystem/src/LibraryManagementSystem.java:93-102 | a trimmed, non-empty fine text without `$` reaches the number parser unchanged |
| Validation.TryParseFineIgnoresTrim | LibraryManagementSystem/src/LibraryManagementSystem.java:119-125 | trimming the fine field before `tryParseFine` does not change the outcome |
| Validation.ParsePatronLine | LibraryManagementSystem/src/LibraryManagementSystem.java:112-130 | `parsePatronLine`: split at the first three dashes, trim the four fields, check id, name, address and fine in order; every record it returns has a valid id, a non-empty trimmed name and address, and a fine in range |
| Validation.TooFewDashesRejected | LibraryManagementSystem/src/LibraryManagementSystem.java:113-114 | a line with fewer than three dashes is refused |
| Validation.ParseSplitFields | LibraryManagementSystem/src/LibraryManagementSystem.java:116-129 | for four split fields, the result is the record of the trimmed fields when the id, name, address and fine checks all pass, and null otherwise |
| Validation.ParseLineFields | LibraryManagementSystem/src/LibraryManagementSystem.java:112-130 | for `a-b-c-e` with dash-free `a`, `b`, `c`, the result is the record of the trimmed fields when every check passes, with the whole of `e` as the fine text, and null otherwise |
| Validation.ParseFormatLine | LibraryManagementSystem/src/LibraryManagementSystem.java:42-47 | round trip: a valid patron with a dash-free name and address, written as `ID-Name-Address-Fine` with a fine text the parser reads back, parses to that same patron |
| Validation.SampleLineAccepted | LibraryManagementSystem/src/LibraryManagementSystem.java:46 | the documented example `1234567-John Doe-123 Main St-12.50` yields that patron with fine 12.5 |
| Validation.AddressDashMovesToFineText | LibraryManagementSystem/src/LibraryManagementSystem.java:110-113 | with a dash inside the address, any record has the address cut at that dash, and its fine comes from the rest of the address joined to the fine text |
| Validation.AddressDashEndsInFineText | LibraryManagementSystem/src/LibraryManagementSystem.java:110-113 | `1234567-John Doe-123-A-St-12.50` is refused whenever the parser refuses `A-St-12.50` |
| Validation.WrongLengthIdRejected | LibraryManagementSystem/src/LibraryManagementSystem.java:116-121 | any line whose trimmed id field is not seven characters long (a six-digit id, say) is refused, whatever its name, address and fine |
| Roster.IdSet | LibraryManagementSystem/src/LibraryManagementSystem.java:10 | the key set holds exactly the ids of the stored records |
| Roster.UniqueIdsCount | LibraryManagementSystem/src/LibraryManagementSystem.java:16-18 | with unique ids, the number of keys equals the number of stored records |
| Roster.Without | LibraryManagementSystem/src/LibraryManagementSystem.java:27 | after removal the id is absent, nothing is added, and the store does not grow |
| Roster.WithoutAbsent | LibraryManagementSystem/src/LibraryManagementSystem.java:27 | removing an absent id changes nothing |
| Roster.WithoutSplice | LibraryManagementSystem/src/LibraryManagementSystem.java:27 | removing a stored id takes out exactly that record and keeps the others in their order |
| Roster.RemoveById | LibraryManagementSystem/src/LibraryManagementSystem.java:26-28 | removal keeps ids unique, shrinks the store by one exactly when the id was present, otherwise changes nothing, and keeps the remaining order |
| Roster.AppendFresh | LibraryManagementSystem/src/LibraryManagementSystem.java:20-24 | appending a record with a fresh id keeps ids unique and stores that id |
| Roster.PatronLineParser | LibraryManagementSystem/src/LibraryManagementSystem.java:61 | the import's line parser is `parsePatronLine` and yields only valid records |
| Roster.NonBlankCount | LibraryManagementSystem/src/LibraryManagementSystem.java:58-59 | the number of lines not blank after trimming is at most the number of lines |
| Roster.StoreParsed | LibraryManagementSystem/src/LibraryManagementSystem.java:61-74 | a parsed line counts once: either the store and `added` stay as they were (refused line or duplicate id), or a record with a fresh id is appended and `added` rises by one; a parsed record whose id is absent is always the one appended, with `added` one higher and `skipped` unchanged |
| Roster.ImportLine | LibraryManagementSystem/src/LibraryManagementSystem.java:57-74 | one line of the loop counts once exactly when it is not blank after trimming; the store keeps its old records first and grows by what `added` grows by |
| Roster.ImportLines | LibraryManagementSystem/src/LibraryManagementSystem.java:56-75 | the import of a sequence of lines: added + skipped equals the non-blank lines, the store grows by `added`, and the old records stay first |
| Roster.ImportLineOutcome | LibraryManagementSystem/src/LibraryManagementSystem.java:57-74 | after one line neither counter has fallen and `added` has risen by at most one, so the store gains at most one record; ids stay unique |
| Roster.ImportOutcome | LibraryManagementSystem/src/LibraryManagementSystem.java:56-75 | ids stay unique after a whole import, for any line parser |
| Roster.ImportAppendsValid | LibraryManagementSystem/src/LibraryManagementSystem.java:61-73 | every record an import appends is valid |
| Roster.ImportNeverOverwrites | LibraryManagementSystem/src/LibraryManagementSystem.java:67-71 | a record stored before the import is still there, unchanged, and no other record carries its id |
| Roster.ImportKeepsIds | LibraryManagementSystem/src/LibraryManagementSystem.java:67-73 | an id stored before an import is stored after it |
| Roster.ImportStoresParsedIds | LibraryManagementSystem/src/LibraryManagementSystem.java:67-74 | after an import, the id of every non-blank line that parses is stored |
| Roster.ImportLineIdsFrom | LibraryManagementSystem/src/LibraryManagementSystem.java:58-74 | after one import step, every stored id was stored before it or is the id the line parses to |
| Roster.ImportIdsFromLines | LibraryManagementSystem/src/LibraryManagementSystem.java:55-75 | after an import, every stored id was in the old store or is the parsed id of some non-blank line: the converse of `ImportKeepsIds` and `ImportStoresParsedIds` |
| Roster.DuplicateLineSkipped | LibraryManagementSystem/src/LibraryManagementSystem.java:67-71 | a line whose id is already stored, from before or from an earlier line of the same batch, only raises `skipped` and changes no record |
| Roster.FreshLineAdded | LibraryManagementSystem/src/LibraryManagementSystem.java:66-74 | a non-blank line whose parsed id is not stored when the line is read is appended at the end and raises `added` by one, `skipped` unchanged |
| Roster.FreshInputLineAdded | LibraryManagementSystem/src/LibraryManagementSystem.java:66-74 | the same, stated on the inputs: a non-blank line whose parsed id is in neither the old store nor any earlier non-blank line is appended and raises `added` by one, `skipped` unchanged |
| Roster.ImportResult | LibraryManagementSystem/src/LibraryManagementSystem.java:133-147 | the import's outcome: the two counters and an optional error message |
| Roster.ImportResult.HasError | LibraryManagementSystem/src/LibraryManagementSystem.java:144-146 | `hasError` holds exactly when the error message is not null |
| Roster.LibraryManagementSystem.constructor | LibraryManagementSystem/src/LibraryManagementSystem.java:10 | a new system starts with an empty roster |
| Roster.LibraryManagementSystem.PatronIdExists | LibraryManagementSystem/src/LibraryManagementSystem.java:12-14 | true exactly when the id is a key of the map |
| Roster.LibraryManagementSystem.PatronCount | LibraryManagementSystem/src/LibraryManagementSystem.java:16-18 | the count is the number of distinct ids stored |
| Roster.LibraryManagementSystem.AddPatron | LibraryManagementSystem/src/LibraryManagementSystem.java:20-24 | returns false and leaves the store unchanged when the id is present; otherwise appends the record at the end, returns true, and the count rises by one; ids stay unique |
| Roster.LibraryManagementSystem.RemovePatronById | LibraryManagementSystem/src/LibraryManagementSystem.java:26-28 | returns true exactly when the id was present; afterwards it is absent, the count drops by one exactly when true, and the other records keep their order |
| Roster.LibraryManagementSystem.LoadLine | LibraryManagementSystem/src/LibraryManagementSystem.java:57-75 | one pass of the read loop does what `ImportLine` specifies, to the store and to the counters |
| Roster.LibraryManagementSystem.StoreRecord | LibraryManagementSystem/src/LibraryManagementSystem.java:61-74 | a refused line or a duplicate id raises `skipped`; any other record is inserted and raises `added` |
| Roster.LibraryManagementSystem.LoadPatronsFromFile | LibraryManagementSystem/src/LibraryManagementSystem.java:48-81 | the store ends as `ImportLines` of the delivered lines leaves it, and old records stay first. After a complete read the result has no error, added + skipped equals the non-blank lines, and the store grows by `added`. After an `IOException` the result is (0, 0, "File error: " + message), and records already inserted stay |

## Left out

- LibraryManagementSystem/src/Main.java is not part of this model. It is the console menu, with prompts and printing around the calls modelled here.
- `displayAllPatrons` (LibraryManagementSystem.java:30-40) only prints. The insertion-ordered `patrons` sequence is what it would walk.
- File opening and reading (`BufferedReader`, `FileReader`) are left out. The import receives the delivered lines and, optionally, the message of the `IOException` that ended the read (`FileContents`).
- `Double.parseDouble` is the parameter `parseNumber`. Which texts parse (exponents, "Infinity", hexadecimal forms) is the host's business.
- A NaN fine cannot be represented as a `real`. In the source, NaN fails `isValidFine`, because both comparisons are false. A `real` has no negative zero either: in the source the fine text "-0" parses to -0.0, passes `isValidFine` (`-0.0 >= 0.0` holds) and displays as "$-0.00", while "0" displays as "$0.00"; in the model both are the real 0.0 and get the one string `formatFine(0.0)`.
- `%.2f` and its rounding are the parameter `formatFine` of `ToFormattedString`. `toString` delegates to `toFormattedString` and is not modelled separately.
- The unused `lineNum` counter (LibraryManagementSystem.java:54, 57) is left out.
- LoadPatronsFromFile: the `added` and `skipped` counters are unbounded. Java's `int` would wrap after 2^31 - 1 lines, which the model does not capture.
- PatronRecord.Patron: fields cannot be null in the model. The Java constructor would accept null strings, but both places that build records pass non-null trimmed strings: the parser at LibraryManagementSystem.java:129 and the console menu at Main.java:118.
- Roster.LibraryManagementSystem.PatronIdExists and Roster.LibraryManagementSystem.RemovePatronById take a non-null id. Java's `containsKey(null)` and `remove(null)` would return false, and that case is not modelled. The console menu only passes trimmed input lines (Main.java:65, 129).
- Validation.IsValidId and Validation.TryParseFine model `null` as `None`. Lines read from a file are never null, so the import never passes `None`.
- Strings.Trim: Dafny characters are Unicode scalar values. Java strings may hold unpaired UTF-16 surrogates, which the model cannot express; they are above U+0020, so `trim()` keeps them either way.
