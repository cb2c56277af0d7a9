/** The field splitter `parseFields`: a two-state machine (inside or outside
    quotes) run over the line one character at a time, and an independent
    description of its output in terms of quote parity. */
module Fields {

  import opened Quotes

  // ---------------------------------------------------------------------
  // The state machine as the source runs it
  // ---------------------------------------------------------------------

  /** The splitter's variables: the fields closed so far, the buffer of the
      field being built, and whether the scan is inside quotes. */
  datatype SplitState = SplitState(fields: seq<string>, buf: string, inQuotes: bool)

  const Start := SplitState([], [], false)

  /** One iteration of the loop body: a quote toggles the state and is
      dropped, a comma outside quotes closes the buffer, anything else is
      appended to the buffer. */
  function Step(st: SplitState, ch: char): SplitState {
    if ch == Quote then
      st.(inQuotes := !st.inQuotes)
    else if ch == ',' && !st.inQuotes then
      SplitState(st.fields + [st.buf], [], st.inQuotes)
    else
      st.(buf := st.buf + [ch])
  }

  /** The state after the loop has consumed all of `s`. */
  function Scan(s: string): SplitState
    decreases |s|
  {
    if |s| == 0 then Start else Step(Scan(s[..|s| - 1]), s[|s| - 1])
  }

  /** Consuming one more character is one more step. */
  lemma ScanSnoc(p: string, ch: char)
    ensures Scan(p + [ch]) == Step(Scan(p), ch)
  {
    assert (p + [ch])[..|p|] == p;
  }

  /** End of line: the buffer becomes a last field only when non-empty. */
  function Flush(st: SplitState): seq<string> {
    if |st.buf| > 0 then st.fields + [st.buf] else st.fields
  }

  function ParseFields(line: string): seq<string> {
    Flush(Scan(line))
  }

  // ---------------------------------------------------------------------
  // A reference description, by quote parity instead of a state variable
  // ---------------------------------------------------------------------

  /** A comma "met outside quotes": an even number of quotes precedes it. */
  predicate OutsideComma(prefix: string, ch: char) {
    ch == ',' && Balanced(prefix)
  }

  /** A line read as a stream of field separators and data characters. */
  datatype Token = Sep | Chr(ch: char)

  function TokenOf(prefix: string, ch: char): seq<Token> {
    if ch == Quote then []
    else if OutsideComma(prefix, ch) then [Sep]
    else [Chr(ch)]
  }

  /** The token stream of a line: quotes vanish, outside commas become
      separators, every other character is data. */
  function Tokens(s: string): seq<Token>
    decreases |s|
  {
    if |s| == 0 then [] else Tokens(s[..|s| - 1]) + TokenOf(s[..|s| - 1], s[|s| - 1])
  }

  function Chars(f: string): (ts: seq<Token>)
    ensures |ts| == |f|
    ensures forall i :: 0 <= i < |f| ==> ts[i] == Chr(f[i])
  {
    seq(|f|, i requires 0 <= i < |f| => Chr(f[i]))
  }

  /** The pieces written out with a separator between neighbours. */
  function Join(pieces: seq<string>): seq<Token>
    requires |pieces| > 0
    decreases |pieces|
  {
    if |pieces| == 1 then Chars(pieces[0])
    else Join(pieces[..|pieces| - 1]) + [Sep] + Chars(pieces[|pieces| - 1])
  }

  predicate EndsInChar(ts: seq<Token>) {
    |ts| > 0 && ts[|ts| - 1].Chr?
  }

  /** The field list of a line together with the empty last piece that is
      dropped when nothing but quotes follows the last outside comma. */
  function Pieces(fields: seq<string>, line: string): seq<string> {
    if EndsInChar(Tokens(line)) then fields else fields + [[]]
  }

  /** The line with every quote and every outside comma removed. */
  function Content(s: string): string
    decreases |s|
  {
    if |s| == 0 then []
    else
      var p, ch := s[..|s| - 1], s[|s| - 1];
      Content(p) + (if ch == Quote || OutsideComma(p, ch) then [] else [ch])
  }

  /** The number of commas met outside quotes. */
  function OutsideCommas(s: string): nat
    decreases |s|
  {
    if |s| == 0 then 0
    else
      var p := s[..|s| - 1];
      OutsideCommas(p) + (if OutsideComma(p, s[|s| - 1]) then 1 else 0)
  }

  function Concat(fs: seq<string>): string
    decreases |fs|
  {
    if |fs| == 0 then [] else Concat(fs[..|fs| - 1]) + fs[|fs| - 1]
  }

  // ---------------------------------------------------------------------
  // Join is injective
  // ---------------------------------------------------------------------

  lemma JoinAppend(ps: seq<string>, f: string)
    requires |ps| > 0
    ensures Join(ps + [f]) == Join(ps) + [Sep] + Chars(f)
  {
    assert (ps + [f])[..|ps|] == ps;
  }

  lemma CharsSnoc(f: string, ch: char)
    ensures Chars(f + [ch]) == Chars(f) + [Chr(ch)]
  {
  }

  lemma JoinExtendLast(init: seq<string>, last: string, ch: char)
    ensures Join(init + [last + [ch]]) == Join(init + [last]) + [Chr(ch)]
  {
    CharsSnoc(last, ch);
    if |init| == 0 {
      assert init + [last + [ch]] == [last + [ch]];
      assert init + [last] == [last];
    } else {
      JoinAppend(init, last);
      JoinAppend(init, last + [ch]);
    }
  }

  lemma CharsInjective(f: string, g: string)
    requires Chars(f) == Chars(g)
    ensures f == g
  {
    assert forall i :: 0 <= i < |f| ==> Chars(f)[i] == Chr(f[i]) && Chars(g)[i] == Chr(g[i]);
  }

  /** In a join of two or more pieces, the last piece is preceded by a
      separator and consists of data characters only. */
  lemma LastPieceTail(ps: seq<string>)
    requires |ps| > 1
    ensures Join(ps)[|Join(ps)| - 1 - |ps[|ps| - 1]|] == Sep
    ensures forall k :: |Join(ps)| - |ps[|ps| - 1]| <= k < |Join(ps)| ==> Join(ps)[k].Chr?
  {
    var j := Join(ps[..|ps| - 1]);
    var last := ps[|ps| - 1];
    assert Join(ps) == j + [Sep] + Chars(last);
    forall k | |Join(ps)| - |last| <= k < |Join(ps)|
      ensures Join(ps)[k].Chr?
    {
      assert Join(ps)[k] == Chars(last)[k - |j| - 1];
    }
  }

  /** Different piece lists never write out to the same token stream. */
  lemma {:induction false} JoinInjective(a: seq<string>, b: seq<string>)
    requires |a| > 0 && |b| > 0 && Join(a) == Join(b)
    ensures a == b
    decreases |a| + |b|
  {
    var la, lb := a[|a| - 1], b[|b| - 1];
    if |a| == 1 && |b| == 1 {
      CharsInjective(la, lb);
    } else if |a| == 1 {
      LastPieceTail(b);
      assert false;
    } else if |b| == 1 {
      LastPieceTail(a);
      assert false;
    } else {
      var ja, jb := Join(a[..|a| - 1]), Join(b[..|b| - 1]);
      assert Join(a) == ja + [Sep] + Chars(la);
      assert Join(b) == jb + [Sep] + Chars(lb);
      if |la| != |lb| {
        LastPieceTail(a);
        LastPieceTail(b);
        assert false;
      } else {
        assert |ja| == |jb|;
        assert ja == Join(a)[..|ja|] == Join(b)[..|jb|] == jb;
        assert Chars(la) == Join(a)[|ja| + 1..] == Join(b)[|jb| + 1..] == Chars(lb);
        CharsInjective(la, lb);
        JoinInjective(a[..|a| - 1], b[..|b| - 1]);
        assert a == a[..|a| - 1] + [la];
        assert b == b[..|b| - 1] + [lb];
      }
    }
  }

  // ---------------------------------------------------------------------
  // Invariants of the scan
  // ---------------------------------------------------------------------

  /** After any prefix, the machine is inside quotes exactly when that
      prefix holds an odd number of quotes. */
  lemma {:induction false} ScanParity(s: string)
    ensures Scan(s).inQuotes <==> !Balanced(s)
    decreases |s|
  {
    if |s| > 0 {
      var p := s[..|s| - 1];
      ScanParity(p);
      assert s == p + [s[|s| - 1]];
    }
  }

  /** The closed fields and the buffer, joined by separators, are the token
      stream of the prefix consumed so far. */
  lemma {:induction false} ScanJoin(s: string)
    ensures Join(Scan(s).fields + [Scan(s).buf]) == Tokens(s)
    decreases |s|
  {
    if |s| > 0 {
      var p, ch := s[..|s| - 1], s[|s| - 1];
      ScanJoin(p);
      ScanParity(p);
      var st := Scan(p);
      var ps := st.fields + [st.buf];
      if ch == Quote {
      } else if ch == ',' && !st.inQuotes {
        JoinAppend(ps, []);
        assert Scan(s).fields + [Scan(s).buf] == ps + [[]];
      } else {
        JoinExtendLast(st.fields, st.buf, ch);
      }
    }
  }

  /** The buffer is non-empty exactly when the token stream so far ends in
      a data character. */
  lemma {:induction false} ScanBuffer(s: string)
    ensures |Scan(s).buf| > 0 <==> EndsInChar(Tokens(s))
    decreases |s|
  {
    if |s| > 0 {
      var p, ch := s[..|s| - 1], s[|s| - 1];
      ScanBuffer(p);
      ScanParity(p);
      assert Tokens(s) == Tokens(p) + TokenOf(p, ch);
      if ch == Quote {
        assert Tokens(s) == Tokens(p);
      } else if OutsideComma(p, ch) {
        assert Scan(s).buf == [];
      } else {
        assert Scan(s).buf == Scan(p).buf + [ch];
      }
    }
  }

  /** The closed fields followed by the buffer spell out the content. */
  lemma {:induction false} ScanContent(s: string)
    ensures Concat(Scan(s).fields) + Scan(s).buf == Content(s)
    decreases |s|
  {
    if |s| > 0 {
      var p, ch := s[..|s| - 1], s[|s| - 1];
      ScanContent(p);
      ScanParity(p);
      var st := Scan(p);
      if ch == ',' && !st.inQuotes {
        assert (st.fields + [st.buf])[..|st.fields|] == st.fields;
      }
    }
  }

  /** One field is closed per outside comma. */
  lemma {:induction false} ScanCount(s: string)
    ensures |Scan(s).fields| == OutsideCommas(s)
    decreases |s|
  {
    if |s| > 0 {
      var p := s[..|s| - 1];
      ScanCount(p);
      ScanParity(p);
    }
  }

  /** Neither the closed fields nor the buffer ever hold a quote. */
  lemma {:induction false} ScanQuoteFree(s: string)
    ensures forall f :: f in Scan(s).fields ==> Quote !in f
    ensures Quote !in Scan(s).buf
    decreases |s|
  {
    if |s| > 0 {
      ScanQuoteFree(s[..|s| - 1]);
    }
  }

  // ---------------------------------------------------------------------
  // Properties of parseFields
  // ---------------------------------------------------------------------

  /** A quote-balanced line is scanned to its end outside quotes. */
  lemma BalancedEndsOutsideQuotes(line: string)
    requires Balanced(line)
    ensures !Scan(line).inQuotes
  {
    ScanParity(line);
  }

  /** No field contains a quote character. */
  lemma ParseFieldsQuoteFree(line: string)
    ensures forall f :: f in ParseFields(line) ==> Quote !in f
  {
    ScanQuoteFree(line);
  }

  /** Concatenating the fields gives back the line without its quotes and
      without the commas met outside quotes. */
  lemma ParseFieldsContent(line: string)
    ensures Concat(ParseFields(line)) == Content(line)
  {
    var st := Scan(line);
    ScanContent(line);
    if |st.buf| > 0 {
      assert (st.fields + [st.buf])[..|st.fields|] == st.fields;
    }
  }

  /** One field per outside comma, plus one more exactly when a data
      character follows the last outside comma; an empty final field is
      dropped. */
  lemma ParseFieldsCount(line: string)
    ensures |ParseFields(line)| == OutsideCommas(line) + (if EndsInChar(Tokens(line)) then 1 else 0)
  {
    ScanCount(line);
    ScanBuffer(line);
  }

  /** The fields, with the dropped empty last piece put back, written out
      with separators, are exactly the line's token stream. */
  lemma ParseFieldsJoin(line: string)
    ensures |Pieces(ParseFields(line), line)| > 0
    ensures Join(Pieces(ParseFields(line), line)) == Tokens(line)
  {
    var st := Scan(line);
    ScanJoin(line);
    ScanBuffer(line);
    assert Pieces(ParseFields(line), line) == st.fields + [st.buf];
  }

  /** ... and they are the only field list with that property. */
  lemma ParseFieldsUnique(line: string, fs: seq<string>)
    requires |Pieces(fs, line)| > 0 && Join(Pieces(fs, line)) == Tokens(line)
    ensures fs == ParseFields(line)
  {
    ParseFieldsJoin(line);
    JoinInjective(Pieces(fs, line), Pieces(ParseFields(line), line));
    if !EndsInChar(Tokens(line)) {
      assert fs == Pieces(fs, line)[..|fs|];
      assert ParseFields(line) == Pieces(ParseFields(line), line)[..|ParseFields(line)|];
    }
  }

  /** A comma closing a balanced line adds an empty field only when the
      line already ends with an empty piece; otherwise it changes nothing. */
  lemma TrailingCommaDropped(line: string)
    requires Balanced(line)
    ensures ParseFields(line + [',']) == if EndsInChar(Tokens(line)) then ParseFields(line) else ParseFields(line) + [[]]
  {
    var st := Scan(line);
    assert (line + [','])[..|line|] == line;
    ScanParity(line);
    ScanBuffer(line);
    assert Scan(line + [',']) == SplitState(st.fields + [st.buf], [], false);
  }

  // ---------------------------------------------------------------------
  // The loop of parseFields
  // ---------------------------------------------------------------------

  /** `parseFields` as written: one pass with a fields slice, a buffer and
      an in-quotes flag that tracks the parity of the quotes seen so far. */
  method ParseFieldsLoop(line: string) returns (fields: seq<string>)
    ensures fields == ParseFields(line)
    ensures forall f :: f in fields ==> Quote !in f
  {
    fields := [];
    var field: string := [];
    var inQuotes := false;
    for i := 0 to |line|
      invariant SplitState(fields, field, inQuotes) == Scan(line[..i])
      invariant inQuotes <==> !Balanced(line[..i])
      invariant forall f :: f in fields ==> Quote !in f
      invariant Quote !in field
    {
      var ch := line[i];
      assert line[..i + 1][..i] == line[..i];
      if ch == Quote {
        inQuotes := !inQuotes;
      } else if ch == ',' && !inQuotes {
        fields := fields + [field];
        field := [];
      } else {
        field := field + [ch];
      }
      ScanParity(line[..i + 1]);
    }
    assert line[..|line|] == line;
    if |field| > 0 {
      fields := fields + [field];
    }
  }
}
