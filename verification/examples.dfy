/** Concrete lines and the fields the splitter produces for them. */
module FieldExamples {

  import opened Fields

  /** The first field `a` of most examples, closed by a comma. */
  lemma ScanAComma()
    ensures Scan("a") == SplitState([], "a", false)
    ensures Scan("a,") == SplitState(["a"], "", false)
  {
    assert Scan("a") == SplitState([], "a", false) by {
      assert "a" == "" + ['a'];
      ScanSnoc("", 'a');
    }
    assert "a," == "a" + [','];
    ScanSnoc("a", ',');
  }

  /** Two plain fields `a` and `b` so far, the second still open. */
  lemma ScanACommaB()
    ensures Scan("a,b") == SplitState(["a"], "b", false)
  {
    ScanAComma();
    assert "a,b" == "a," + ['b'];
    ScanSnoc("a,", 'b');
  }

  /** A comma inside quotes does not split; the quotes are stripped. */
  lemma QuotedCommaKept()
    ensures ParseFields("a,\"b,c\",d") == ["a", "b,c", "d"]
  {
    ScanAComma();
    assert Scan("a,\"") == SplitState(["a"], "", true) by {
      assert "a,\"" == "a," + ['\"'];
      ScanSnoc("a,", '\"');
    }
    assert Scan("a,\"b") == SplitState(["a"], "b", true) by {
      assert "a,\"b" == "a,\"" + ['b'];
      ScanSnoc("a,\"", 'b');
    }
    assert Scan("a,\"b,") == SplitState(["a"], "b,", true) by {
      assert "a,\"b," == "a,\"b" + [','];
      ScanSnoc("a,\"b", ',');
    }
    assert Scan("a,\"b,c") == SplitState(["a"], "b,c", true) by {
      assert "a,\"b,c" == "a,\"b," + ['c'];
      ScanSnoc("a,\"b,", 'c');
    }
    assert Scan("a,\"b,c\"") == SplitState(["a"], "b,c", false) by {
      assert "a,\"b,c\"" == "a,\"b,c" + ['\"'];
      ScanSnoc("a,\"b,c", '\"');
    }
    assert Scan("a,\"b,c\",") == SplitState(["a", "b,c"], "", false) by {
      assert "a,\"b,c\"," == "a,\"b,c\"" + [','];
      ScanSnoc("a,\"b,c\"", ',');
    }
    assert Scan("a,\"b,c\",d") == SplitState(["a", "b,c"], "d", false) by {
      assert "a,\"b,c\",d" == "a,\"b,c\"," + ['d'];
      ScanSnoc("a,\"b,c\",", 'd');
    }
  }

  /** A quote toggles the state wherever it stands, even inside a field. */
  lemma QuoteTogglesMidField()
    ensures ParseFields("a\"b,c\"d") == ["ab,cd"]
  {
    ScanAComma();
    assert Scan("a\"") == SplitState([], "a", true) by {
      assert "a\"" == "a" + ['\"'];
      ScanSnoc("a", '\"');
    }
    assert Scan("a\"b") == SplitState([], "ab", true) by {
      assert "a\"b" == "a\"" + ['b'];
      ScanSnoc("a\"", 'b');
    }
    assert Scan("a\"b,") == SplitState([], "ab,", true) by {
      assert "a\"b," == "a\"b" + [','];
      ScanSnoc("a\"b", ',');
    }
    assert Scan("a\"b,c") == SplitState([], "ab,c", true) by {
      assert "a\"b,c" == "a\"b," + ['c'];
      ScanSnoc("a\"b,", 'c');
    }
    assert Scan("a\"b,c\"") == SplitState([], "ab,c", false) by {
      assert "a\"b,c\"" == "a\"b,c" + ['\"'];
      ScanSnoc("a\"b,c", '\"');
    }
    assert Scan("a\"b,c\"d") == SplitState([], "ab,cd", false) by {
      assert "a\"b,c\"d" == "a\"b,c\"" + ['d'];
      ScanSnoc("a\"b,c\"", 'd');
    }
  }

  /** A comma outside quotes closes the field even when it is empty. */
  lemma EmptyInteriorFieldKept()
    ensures ParseFields("a,,b") == ["a", "", "b"]
  {
    ScanAComma();
    assert Scan("a,,") == SplitState(["a", ""], "", false) by {
      assert "a,," == "a," + [','];
      ScanSnoc("a,", ',');
    }
    assert Scan("a,,b") == SplitState(["a", ""], "b", false) by {
      assert "a,,b" == "a,," + ['b'];
      ScanSnoc("a,,", 'b');
    }
  }

  /** A leading comma produces an empty first field. */
  lemma LeadingEmptyFieldKept()
    ensures ParseFields(",a") == ["", "a"]
  {
    assert Scan(",") == SplitState([""], "", false) by {
      assert "," == "" + [','];
      ScanSnoc("", ',');
    }
    assert Scan(",a") == SplitState([""], "a", false) by {
      assert ",a" == "," + ['a'];
      ScanSnoc(",", 'a');
    }
  }

  /** A trailing empty field is dropped. */
  lemma TrailingEmptyFieldDropped()
    ensures ParseFields("a,b,") == ["a", "b"]
  {
    ScanACommaB();
    assert Scan("a,b,") == SplitState(["a", "b"], "", false) by {
      assert "a,b," == "a,b" + [','];
      ScanSnoc("a,b", ',');
    }
  }

  /** A last field made only of quotes is empty and is dropped. */
  lemma EmptyQuotedLastFieldDropped()
    ensures ParseFields("a,\"\"") == ["a"]
  {
    ScanAComma();
    assert Scan("a,\"") == SplitState(["a"], "", true) by {
      assert "a,\"" == "a," + ['\"'];
      ScanSnoc("a,", '\"');
    }
    assert Scan("a,\"\"") == SplitState(["a"], "", false) by {
      assert "a,\"\"" == "a,\"" + ['\"'];
      ScanSnoc("a,\"", '\"');
    }
  }

  /** A line holding only a pair of quotes has no fields. */
  lemma EmptyQuotesGiveNoFields()
    ensures ParseFields("\"\"") == []
  {
    assert Scan("\"") == SplitState([], "", true) by {
      assert "\"" == "" + ['\"'];
      ScanSnoc("", '\"');
    }
    assert Scan("\"\"") == SplitState([], "", false) by {
      assert "\"\"" == "\"" + ['\"'];
      ScanSnoc("\"", '\"');
    }
  }

  /** Unquoted fields split at every comma. */
  lemma PlainFields()
    ensures ParseFields("a,b,c") == ["a", "b", "c"]
  {
    ScanACommaB();
    assert Scan("a,b,") == SplitState(["a", "b"], "", false) by {
      assert "a,b," == "a,b" + [','];
      ScanSnoc("a,b", ',');
    }
    assert Scan("a,b,c") == SplitState(["a", "b"], "c", false) by {
      assert "a,b,c" == "a,b," + ['c'];
      ScanSnoc("a,b,", 'c');
    }
  }

  /** Whitespace inside the line belongs to the field it is in. */
  lemma InnerSpaceKept()
    ensures ParseFields("a, b") == ["a", " b"]
  {
    ScanAComma();
    assert Scan("a, ") == SplitState(["a"], " ", false) by {
      assert "a, " == "a," + [' '];
      ScanSnoc("a,", ' ');
    }
    assert Scan("a, b") == SplitState(["a"], " b", false) by {
      assert "a, b" == "a, " + ['b'];
      ScanSnoc("a, ", 'b');
    }
  }

  /** The empty line has no fields. */
  lemma EmptyLineHasNoFields()
    ensures ParseFields("") == []
  {
  }
}

/** Concrete calls of the parser step. */
module ParserExamples {

  import opened Errors
  import opened Quotes
  import opened Text
  import opened CsvParser
  import FieldExamples

  /** A line without quotes is balanced. */
  lemma NoQuotesBalanced()
    ensures Balanced(" a, b ")
  {
    assert Quote !in " a, b ";
  }

  /** Outer whitespace is cut away, inner whitespace is kept. */
  lemma OuterSpaceTrimmed()
    ensures TrimSpace(" a, b ") == "a, b"
  {
    var pad, t := " ", "a, b";
    assert pad + t + pad == " a, b ";
    assert AllSpace(pad) by {
      assert IsSpace(pad[0]);
    }
    TrimSpaceUnique(pad, t, pad);
  }

  /** Outer whitespace is trimmed before splitting; inner whitespace stays
      with its field. */
  lemma TrimBeforeSplit()
    ensures ReadLine(Zero, " a, b ") == (Parser("a, b", ["a", " b"]), Reply("a, b", None))
  {
    NoQuotesBalanced();
    OuterSpaceTrimmed();
    FieldExamples.InnerSpaceKept();
  }

  /** A line with a lone quote is refused and the record is kept. */
  lemma OddQuoteRefused(p: Parser)
    ensures ReadLine(p, "a\"b") == (p, Reply([], Some(ErrQuote)))
  {
    assert !Balanced("a\"b") by {
      assert multiset("a\"b") == multiset{'a', Quote, 'b'};
    }
  }
}
