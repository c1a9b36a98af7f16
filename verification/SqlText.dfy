/** SQL quoting as the offline migration does it, and the lexer it must survive. */
module SqlText {
  import opened Text

  /** `value.replace(q, q + q)` */
  function Doubled(q: char, value: string): string {
    if value == "" then ""
    else (if value[0] == q then [q, q] else [value[0]]) + Doubled(q, value[1..])
  }

  function Quote(q: char, value: string): string {
    [q] + Doubled(q, value) + [q]
  }

  function Ident(value: string): string {
    Quote('"', value)
  }

  function Literal(value: string): string {
    Quote('\'', value)
  }

  datatype Token = Token(value: string, rest: string)

  /**
    Delimited identifiers and character literals of ISO/IEC 9075-2, subclauses
    5.2 and 5.3: a doubled quote stands for one, a single quote ends the token.
  */
  function Lex(q: char, text: string): Option<Token> {
    if text == "" || text[0] != q then None else LexBody(q, text[1..])
  }

  function LexBody(q: char, text: string): Option<Token> {
    if text == "" then None
    else if text[0] == q && |text| > 1 && text[1] == q then Push(q, LexBody(q, text[2..]))
    else if text[0] == q then Some(Token("", text[1..]))
    else Push(text[0], LexBody(q, text[1..]))
  }

  function Push(c: char, t: Option<Token>): Option<Token> {
    if t.None? then None else Some(Token([c] + t.value.value, t.value.rest))
  }

  predicate Separated(q: char, rest: string) {
    rest == "" || rest[0] != q
  }

  /** The three ways the lexer moves on. */
  lemma LexSteps(q: char, c: char, text: string)
    ensures c != q ==> LexBody(q, [c] + text) == Push(c, LexBody(q, text))
    ensures LexBody(q, [q, q] + text) == Push(q, LexBody(q, text))
    ensures Separated(q, text) ==> LexBody(q, [q] + text) == Some(Token("", text))
  {
    assert ([c] + text)[1..] == text;
    assert ([q, q] + text)[2..] == text;
    assert ([q] + text)[1..] == text;
  }

  lemma {:induction false} LexBodyUndoes(q: char, value: string, rest: string)
    requires Separated(q, rest)
    ensures LexBody(q, Doubled(q, value) + ([q] + rest)) == Some(Token(value, rest))
  {
    if value == "" {
      assert Doubled(q, value) + ([q] + rest) == [q] + rest;
      LexSteps(q, q, rest);
    } else {
      LexBodyUndoes(q, value[1..], rest);
      DoubledFirst(q, value, [q] + rest);
      LexSteps(q, value[0], Doubled(q, value[1..]) + ([q] + rest));
      assert [value[0]] + value[1..] == value;
    }
  }

  lemma DoubledFirst(q: char, value: string, rest: string)
    requires value != ""
    ensures Doubled(q, value) + rest
         == (if value[0] == q then [q, q] else [value[0]]) + (Doubled(q, value[1..]) + rest)
  {
  }

  lemma QuoteOpens(q: char, value: string, rest: string)
    ensures Quote(q, value) + rest == [q] + (Doubled(q, value) + ([q] + rest))
    ensures (Quote(q, value) + rest)[1..] == Doubled(q, value) + ([q] + rest)
  {
  }

  /** Quoting is undone by the lexer for every value and whatever follows but another quote. */
  lemma LexUndoesQuote(q: char, value: string, rest: string)
    requires Separated(q, rest)
    ensures Lex(q, Quote(q, value) + rest) == Some(Token(value, rest))
  {
    LexBodyUndoes(q, value, rest);
    QuoteOpens(q, value, rest);
  }

  ghost predicate Reads(q: char, text: string, t: Token) {
    text == Doubled(q, t.value) + ([q] + t.rest) && Separated(q, t.rest)
  }

  lemma PushReads(q: char, c: char, text: string, t: Token)
    requires Reads(q, text, t)
    ensures Reads(q, (if c == q then [q, q] else [c]) + text, Token([c] + t.value, t.rest))
  {
    assert ([c] + t.value)[1..] == t.value;
  }

  lemma {:induction false} LexBodyReads(q: char, text: string)
    requires LexBody(q, text).Some?
    ensures Reads(q, text, LexBody(q, text).value)
    decreases |text|
  {
    if text[0] == q && |text| > 1 && text[1] == q {
      LexBodyReads(q, text[2..]);
      PushReads(q, q, text[2..], LexBody(q, text[2..]).value);
      assert text == [q, q] + text[2..];
    } else if text[0] == q {
      assert text == [q] + text[1..];
    } else {
      LexBodyReads(q, text[1..]);
      PushReads(q, text[0], text[1..], LexBody(q, text[1..]).value);
      assert text == [text[0]] + text[1..];
    }
  }

  /** Conversely, the lexer accepts nothing but quoted values: the two are inverse. */
  lemma LexReadsOnlyQuotes(q: char, text: string)
    requires Lex(q, text).Some?
    ensures text == Quote(q, Lex(q, text).value.value) + Lex(q, text).value.rest
    ensures Separated(q, Lex(q, text).value.rest)
  {
    LexBodyReads(q, text[1..]);
    QuoteOpens(q, Lex(q, text).value.value, Lex(q, text).value.rest);
    assert text == [q] + text[1..];
  }

  // ------------------------------------------------------------------- names

  function Qualified(schema: string, name: string): string {
    Ident(schema) + "." + Ident(name)
  }

  lemma QualifiedIsInjective(s1: string, n1: string, s2: string, n2: string)
    requires Qualified(s1, n1) == Qualified(s2, n2)
    ensures s1 == s2 && n1 == n2
  {
    var text := Qualified(s1, n1);
    assert text == Ident(s1) + ("." + Ident(n1)) && text == Ident(s2) + ("." + Ident(n2));
    LexUndoesQuote('"', s1, "." + Ident(n1));
    LexUndoesQuote('"', s2, "." + Ident(n2));
    assert Ident(n1) == ("." + Ident(n1))[1..] && Ident(n2) == ("." + Ident(n2))[1..];
    LexUndoesQuote('"', n1, "");
    LexUndoesQuote('"', n2, "");
    assert Ident(n1) + "" == Ident(n1) && Ident(n2) + "" == Ident(n2);
  }

  /** `",".join(literal(x) for x in roles)` */
  function RoleList(roles: seq<string>): string {
    if roles == [] then ""
    else if |roles| == 1 then Literal(roles[0])
    else Literal(roles[0]) + "," + RoleList(roles[1..])
  }

  /** The list of literals that an `IN (...)` clause contains. */
  function LexList(text: string): Option<seq<string>>
    decreases |text|
  {
    var t := Lex('\'', text);
    if t.None? then None
    else if t.value.rest == "" then Some([t.value.value])
    else if t.value.rest[0] != ',' then None
    else
      LexLength('\'', text);
      var more := LexList(t.value.rest[1..]);
      if more.None? then None else Some([t.value.value] + more.value)
  }

  lemma LexLength(q: char, text: string)
    ensures Lex(q, text).Some? ==> |Lex(q, text).value.rest| < |text|
  {
    if Lex(q, text).Some? {
      LexReadsOnlyQuotes(q, text);
    }
  }

  /** No role name, whatever quotes and commas it holds, changes the list that is queried. */
  lemma {:induction false} RoleListIsExact(roles: seq<string>)
    requires roles != []
    ensures LexList(RoleList(roles)) == Some(roles)
  {
    if |roles| == 1 {
      LexUndoesQuote('\'', roles[0], "");
      assert RoleList(roles) + "" == RoleList(roles);
      assert roles == [roles[0]];
    } else {
      var rest := "," + RoleList(roles[1..]);
      assert RoleList(roles) == Literal(roles[0]) + rest;
      LexUndoesQuote('\'', roles[0], rest);
      assert rest[1..] == RoleList(roles[1..]);
      RoleListIsExact(roles[1..]);
      assert roles == [roles[0]] + roles[1..];
    }
  }
}
