/** Quote balance: a line is accepted only when it holds an even number of
    quote characters. */
module Quotes {

  const Quote: char := '"'

  /** The number of quote characters anywhere in `s`. */
  function QuoteCount(s: string): nat {
    multiset(s)[Quote]
  }

  predicate Balanced(s: string) {
    QuoteCount(s) % 2 == 0
  }

  /** The character-counting loop of `containsMismatchedQuotes`: the answer
      is true exactly when the line's quote count is odd. */
  method ContainsMismatchedQuotes(line: string) returns (mismatched: bool)
    ensures mismatched <==> !Balanced(line)
  {
    var quoteCount := 0;
    for i := 0 to |line|
      invariant quoteCount == QuoteCount(line[..i])
    {
      assert line[..i + 1] == line[..i] + [line[i]];
      if line[i] == Quote {
        quoteCount := quoteCount + 1;
      }
    }
    assert line[..|line|] == line;
    mismatched := quoteCount % 2 != 0;
  }
}
