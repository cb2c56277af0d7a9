# Single-line CSV record parser, modelled in Dafny

The repository is a small Go CSV library. Its one real component is a
parser for one line of CSV text. The parser is written twice with identical
logic: `StructCSVParser` in `csv/csv.go` and `CSVParserImpl` in `main.go`.
This project gives one set of definitions for both copies.

- **Quote balance** (`containsMismatchedQuotes`): a line is refused when it
  holds an odd number of `"` characters.
- **Field splitting** (`parseFields`): a two-state machine, inside or
  outside quotes. Every `"` toggles the state and is dropped. A `,` outside
  quotes closes the current field. Every other character is appended to the
  field buffer, and that includes a `,` inside quotes. At the end of the
  line the buffer becomes a last field only if it is non-empty.
- **The parser object** (`ReadLine`, `GetField`, `GetNumberOfFields`):
  `ReadLine` checks the quote balance, trims surrounding whitespace, and
  stores the line and its fields. `GetField` is bounds-checked indexed
  access. `GetNumberOfFields` is the field count.

Files and modules:

- `errors.dfy` (`Errors`): the two errors `ErrQuote` and `ErrFieldCount`.
  It also defines `Reply(value, err)`, which models Go's
  `(string, error)` return. `None` stands for a `nil` error.
- `quotes.dfy` (`Quotes`): the quote count, the `Balanced` predicate, and
  the counting loop.
- `text.dfy` (`Text`): `strings.TrimSpace` over an `IsSpace` predicate. The
  predicate lists the code points that Go's `unicode.IsSpace` accepts. The
  general lemmas rely only on `"` not being whitespace. The trimming
  examples also use that `' '` is whitespace and that letters are not.
- `fields.dfy` (`Fields`): the state machine.
  - `Step` is one loop iteration. `Scan` is the loop over a prefix.
    `Flush` is the end-of-line rule. `ParseFields` is the whole function.
    `ParseFieldsLoop` is the imperative loop.
  - It also gives an independent reference description. `Tokens` reads a
    line as separators and data characters by quote parity. A comma counts
    as a separator when an even number of quotes comes before it.
  - The main theorems say that the fields, joined back with separators,
    give exactly that token stream. They also say that no other field list
    does.
- `examples.dfy` (`FieldExamples`, `ParserExamples`): the edge cases as
  concrete lines.
- `parser.dfy` (`CsvParser`): the parser record and the `ReadLine` step,
  which takes the already-scanned line. It also holds `GetField`,
  `GetNumberOfFields`, and the record invariant `Consistent`, which every
  `ReadLine` preserves.

The field count is not always one more than the number of outside commas.
The code drops an empty final buffer, so a line holding only `""` gives no
fields and `a,b,` gives `["a","b"]`.
`Fields.ParseFieldsCount` states the count the code produces: one field per
outside comma, plus one when a data character follows the last outside
comma.

## Model

| member | source | states |
|---|---|---|
| Quotes.ContainsMismatchedQuotes | csv/csv.go:55-64 | the counting loop answers true exactly when the line holds an odd number of quote characters |
| Text.TrimSpace | csv/csv.go:40 | the trimmed line is a contiguous piece of the input with no whitespace at either end, and everything cut away on both sides is whitespace |
| Text.TrimSpaceUnique | main.go:43 | the trimmed line is the only way to write the input as whitespace, then a piece with no whitespace at its ends, then whitespace |
| Text.TrimSpaceKeepsQuotes | csv/csv.go:35-42 | trimming after the quote check removes no quote, so the stored line has the same quote count and is still balanced |
| Text.TrimSpaceIdempotent | main.go:43-46 | trimming the stored line again changes nothing |
| Fields.ParseFields | csv/csv.go:67-90 | the state machine run over the whole line, then the end-of-line rule; `Fields.ParseFieldsJoin` and `Fields.ParseFieldsUnique` pin its result down as the one field list that, with a dropped empty last piece put back, joins to the line's token stream |
| Fields.ScanParity | main.go:75-80 | after any prefix, the in-quotes flag is true exactly when that prefix holds an odd number of quotes |
| Fields.BalancedEndsOutsideQuotes | main.go:78-80 | a quote-balanced line is scanned to its end outside quotes |
| Fields.ScanJoin | csv/csv.go:73-82 | the closed fields and the buffer, joined by separators, are the token stream of the prefix read so far |
| Fields.ScanBuffer | csv/csv.go:79-80 | the buffer is non-empty exactly when the token stream so far ends in a data character |
| Fields.ScanCount | csv/csv.go:76-78 | one field is closed per comma met outside quotes |
| Fields.ScanQuoteFree | main.go:79-80 | neither the closed fields nor the buffer ever hold a quote |
| Fields.ParseFieldsQuoteFree | csv/csv.go:74-75 | no field produced contains a quote character |
| Fields.ParseFieldsContent | csv/csv.go:73-81 | the fields concatenated are the line with every quote and every comma met outside quotes removed |
| Fields.ParseFieldsCount | csv/csv.go:76-87 | the field count is the number of outside commas, plus one exactly when a data character follows the last of them |
| Fields.ParseFieldsJoin | csv/csv.go:67-90 | the fields, with the dropped empty last piece put back, joined by separators, are exactly the line's token stream |
| Fields.ParseFieldsUnique | main.go:72-95 | no other field list joins to the line's token stream, so the token description fully determines the fields |
| Fields.TrailingCommaDropped | main.go:89-92 | a comma at the end of a balanced line adds an empty field only if the line already ends in an empty piece; otherwise the fields stay the same |
| Fields.ParseFieldsLoop | main.go:73-94 | the imperative loop computes the same fields as the state machine, keeps the in-quotes flag equal to the quote parity of the prefix, and produces no field holding a quote |
| FieldExamples.QuotedCommaKept | csv/csv.go:76-81 | `a,"b,c",d` gives `["a", "b,c", "d"]` |
| FieldExamples.QuoteTogglesMidField | main.go:79-85 | `a"b,c"d` gives the single field `ab,cd` |
| FieldExamples.EmptyInteriorFieldKept | main.go:81-83 | `a,,b` gives `["a", "", "b"]` |
| FieldExamples.LeadingEmptyFieldKept | main.go:82-83 | `,a` gives `["", "a"]` |
| FieldExamples.TrailingEmptyFieldDropped | main.go:90-92 | `a,b,` gives `["a", "b"]` |
| FieldExamples.EmptyQuotedLastFieldDropped | main.go:89-92 | `a,""` gives `["a"]` |
| FieldExamples.EmptyQuotesGiveNoFields | csv/csv.go:84-87 | a line holding only `""` gives no fields |
| FieldExamples.PlainFields | csv/csv.go:73-82 | `a,b,c` gives `["a", "b", "c"]` |
| FieldExamples.InnerSpaceKept | main.go:78-87 | `a, b` gives `["a", " b"]`: whitespace inside the line stays with its field |
| FieldExamples.EmptyLineHasNoFields | csv/csv.go:67-89 | the empty line gives no fields |
| CsvParser.ReadLine | csv/csv.go:35-43 | a line is accepted exactly when it is quote-balanced. A refused line returns `("", ErrQuote)` and leaves the parser as it was. An accepted line returns the trimmed line with a nil error, and stores that line and its fields in a consistent record |
| CsvParser.ReadLineImpl | main.go:35-49 | the method body, with the counting loop and the splitting loop, computes the same new state and reply as `ReadLine` |
| CsvParser.ReadLinePreservesConsistent | main.go:38-49 | every call keeps the record consistent: the stored line is trimmed and balanced, and the fields are its split |
| CsvParser.RefusedLineChangesNothing | main.go:38-40 | after a refused line, every field query and the field count answer as before |
| CsvParser.ReadLineFieldCount | csv/csv.go:40-43 | after an accepted line, the field count is the outside-comma count of the trimmed line, plus one when data follows the last outside comma |
| CsvParser.GetField | csv/csv.go:93-98 | the call succeeds exactly when `0 <= n < len(fields)` and then returns `fields[n]`; otherwise it returns `("", ErrFieldCount)` |
| CsvParser.GetNumberOfFields | csv/csv.go:101-103 | the length of the current field list; `CsvParser.FieldCountGovernsAccess` ties it to the indices `GetField` accepts and to 0 for the zero parser, and `CsvParser.ReadLineFieldCount` gives its value after an accepted line |
| CsvParser.FieldCountGovernsAccess | main.go:98-108 | `GetField` accepts exactly the indices below `GetNumberOfFields`, and a parser that has read nothing has no fields |
| CsvParser.ZeroConsistent | csv/csv.go:24-27 | the zero-valued parser satisfies the record invariant |
| ParserExamples.OuterSpaceTrimmed | csv/csv.go:40 | trimming ` a, b ` gives `a, b`: outer whitespace is cut and the space inside stays |
| ParserExamples.TrimBeforeSplit | main.go:43-47 | reading ` a, b ` stores and returns `a, b` with fields `["a", " b"]` |
| ParserExamples.OddQuoteRefused | csv/csv.go:35-37 | reading `a"b` returns `("", ErrQuote)` and keeps the parser unchanged |

## Left out

- Reading the line is not modelled: `bufio.NewScanner(r)` and
  `scanner.Scan()` (csv/csv.go:31-33, main.go:33-35) are I/O. `ReadLine`
  takes the scanned line as a parameter. A fresh scanner is built on every
  call and may read past one line; that behaviour is also outside the
  model.
- The scanner-error and end-of-input branches (csv/csv.go:46-51,
  main.go:52-57) are I/O outcomes. The source reports end of input as
  `("", nil)`.
- The `main()` driver (main.go:110-148) is not modelled. It only opens a
  file, prints results, and runs a loop that stops after one iteration.
- UTF-8 decoding is not modelled. A string is a sequence of `char`, one per
  Go rune. Invalid bytes decoded as U+FFFD are not modelled.
  `strings.Builder.Len()` counts bytes, but it is positive exactly when at
  least one rune was written, so comparing it with zero is modelled on the
  rune count.
- Go's `strings.TrimSpace` is modelled by its rune-level meaning only. Its
  ASCII fast path is not modelled.
- The `CSVParser` interface and the sentinel `errors.New` values are not
  modelled beyond the two-case `Error` type.
- `GetField` and `GetNumberOfFields` use pointer receivers but never write
  to the parser. In the model they are pure functions of the parser value,
  so "state is never changed" holds by construction.
- The quote counter is a Go `int`. Its overflow is not modelled, because a
  line would need more than 2^63 quotes to overflow it.
