/** The parser object: it remembers the last accepted line and its fields
    and answers indexed queries against them. Reading the line from a
    stream is left to the caller, who passes the scanned line in. */
module CsvParser {

  import opened Errors
  import opened Quotes
  import opened Text
  import opened Fields

  /** The parser's two fields. The zero value has accepted nothing yet. */
  datatype Parser = Parser(currentLine: string, fields: seq<string>)

  const Zero := Parser([], [])

  /** What every reachable parser satisfies: the stored line is trimmed,
      quote-balanced, and the fields are exactly its split. */
  predicate Consistent(p: Parser) {
    && TrimSpace(p.currentLine) == p.currentLine
    && Balanced(p.currentLine)
    && p.fields == ParseFields(p.currentLine)
  }

  /** `ReadLine` after the scanner has produced `line`: an unbalanced line
      is refused before anything is stored; otherwise the trimmed line and
      its fields replace the record and the trimmed line is returned. */
  function ReadLine(p: Parser, line: string): (out: (Parser, Reply<string>))
    ensures out.1.Ok() <==> Balanced(line)
    ensures !Balanced(line) ==> out.0 == p && out.1 == Reply([], Some(ErrQuote))
    ensures Balanced(line) ==> out.0.currentLine == out.1.value == TrimSpace(line)
    ensures Balanced(line) ==> Consistent(out.0)
  {
    if !Balanced(line) then
      (p, Reply([], Some(ErrQuote)))
    else
      var trimmed := TrimSpace(line);
      TrimSpaceKeepsQuotes(line);
      TrimSpaceIdempotent(line);
      (Parser(trimmed, ParseFields(trimmed)), Reply(trimmed, None))
  }

  /** Bounds-checked access to the current record. */
  function GetField(p: Parser, n: int): (r: Reply<string>)
    ensures r.Ok() <==> 0 <= n < |p.fields|
    ensures r.Ok() ==> r.value == p.fields[n]
    ensures !r.Ok() ==> r == Reply([], Some(ErrFieldCount))
  {
    if n < 0 || n >= |p.fields| then Reply([], Some(ErrFieldCount)) else Reply(p.fields[n], None)
  }

  function GetNumberOfFields(p: Parser): nat {
    |p.fields|
  }

  /** The field count is exactly the range of indices `GetField` accepts,
      and a parser that has accepted nothing has no fields. */
  lemma FieldCountGovernsAccess(p: Parser, n: int)
    ensures GetField(p, n).Ok() <==> 0 <= n < GetNumberOfFields(p)
    ensures GetNumberOfFields(Zero) == 0 && !GetField(Zero, n).Ok()
  {
  }

  /** The parser that has accepted nothing is consistent. */
  lemma ZeroConsistent()
    ensures Consistent(Zero)
  {
    EmptyLineTrimmed();
    EmptyLineSplit();
  }

  lemma EmptyLineTrimmed()
    ensures TrimSpace([]) == [] && Balanced([])
  {
  }

  lemma EmptyLineSplit()
    ensures ParseFields([]) == []
  {
  }

  /** Every `ReadLine` keeps the parser consistent, whether it accepts or
      refuses the line. */
  lemma ReadLinePreservesConsistent(p: Parser, line: string)
    requires Consistent(p)
    ensures Consistent(ReadLine(p, line).0)
  {
  }

  /** After an accepted line the record holds one field per outside comma
      of the trimmed line, plus one when data follows the last of them. */
  lemma ReadLineFieldCount(p: Parser, line: string)
    requires Balanced(line)
    ensures var t := TrimSpace(line);
      GetNumberOfFields(ReadLine(p, line).0) == OutsideCommas(t) + (if EndsInChar(Tokens(t)) then 1 else 0)
  {
    ParseFieldsCount(TrimSpace(line));
  }

  /** A refused line leaves every query answering as before. */
  lemma RefusedLineChangesNothing(p: Parser, line: string, n: int)
    requires !Balanced(line)
    ensures GetField(ReadLine(p, line).0, n) == GetField(p, n)
    ensures GetNumberOfFields(ReadLine(p, line).0) == GetNumberOfFields(p)
  {
  }

  /** The Go method body, with the counting loop and the splitting loop,
      computes the same step as `ReadLine`. */
  method ReadLineImpl(p: Parser, line: string) returns (next: Parser, text: string, err: Option<Error>)
    ensures (next, Reply(text, err)) == ReadLine(p, line)
  {
    var mismatched := ContainsMismatchedQuotes(line);
    if mismatched {
      return p, [], Some(ErrQuote);
    }
    var trimmed := TrimSpace(line);
    var fields := ParseFieldsLoop(trimmed);
    next := Parser(trimmed, fields);
    text, err := trimmed, None;
  }
}
