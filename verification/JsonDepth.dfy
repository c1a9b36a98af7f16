/**
  The nesting guard in front of the JSON parser: one pass over the text that
  counts brackets and braces outside strings and stops at depth 64.
*/
module JsonDepth {
  import opened Text

  const LIMIT := 64

  // ----------------------------------------------------------------- scanner

  datatype Scan = Scan(depth: int, quoted: bool, escaped: bool)

  const START := Scan(0, false, false)

  /** One character; None when a depth requirement fails. */
  function Step(s: Scan, c: char): Option<Scan> {
    if s.quoted then
      if s.escaped then Some(s.(escaped := false))
      else if c == '\\' then Some(s.(escaped := true))
      else if c == '"' then Some(s.(quoted := false))
      else Some(s)
    else if c == '"' then Some(s.(quoted := true))
    else if c == '[' || c == '{' then
      if s.depth + 1 <= LIMIT then Some(s.(depth := s.depth + 1)) else None
    else if c == ']' || c == '}' then
      if s.depth - 1 >= 0 then Some(s.(depth := s.depth - 1)) else None
    else Some(s)
  }

  function Run(s: Scan, text: string): Option<Scan>
    decreases text
  {
    if text == "" then Some(s)
    else
      var next := Step(s, text[0]);
      if next.None? then None else Run(next.value, text[1..])
  }

  predicate Accepts(text: string) {
    var end := Run(START, text);
    end.Some? && !end.value.quoted && end.value.depth == 0
  }

  /** The loop of `rows`, with its early refusals. */
  method Guard(raw: string) returns (ok: bool)
    ensures ok <==> Accepts(raw)
  {
    var depth, quoted, escaped := 0, false, false;
    for i := 0 to |raw|
      invariant Run(START, raw) == Run(Scan(depth, quoted, escaped), raw[i..])
    {
      var c := raw[i];
      assert raw[i..] == [c] + raw[i + 1..];
      if quoted {
        if escaped {
          escaped := false;
        } else if c == '\\' {
          escaped := true;
        } else if c == '"' {
          quoted := false;
        }
      } else if c == '"' {
        quoted := true;
      } else if c in "[{" {
        depth := depth + 1;
        if depth > LIMIT { return false; }
      } else if c in "]}" {
        depth := depth - 1;
        if depth < 0 { return false; }
      }
    }
    return !quoted && depth == 0;
  }

  // ------------------------------------------------------------- JSON values

  /** Section 7 of RFC 8259: a character as itself, or a backslash and the character after it. */
  datatype Piece = Plain(c: char) | Escape(c: char)

  /**
    The concrete syntax of a JSON text.  `gap` texts hold white space, commas and
    colons; `Atom` is a number or a literal name.  An object's members are a key
    and a value, an array's are values.
  */
  datatype Json =
    | Atom(text: string)
    | Str(pieces: seq<Piece>)
    | Nest(brace: bool, kids: Kids)

  datatype Kids =
    | End(gap: string)
    | Value(gap: string, value: Json, rest: Kids)
    | Member(gap: string, key: seq<Piece>, colon: string, value: Json, rest: Kids)

  /** Text without quotes, brackets and braces. */
  ghost predicate Neutral(text: string) {
    forall c :: c in text ==> c !in "\"[]{}"
  }

  ghost predicate Proper(pieces: seq<Piece>) {
    forall p :: p in pieces && p.Plain? ==> p.c != '"' && p.c != '\\'
  }

  ghost predicate WellFormed(v: Json) {
    match v
    case Atom(text) => Neutral(text)
    case Str(pieces) => Proper(pieces)
    case Nest(_, kids) => WellFormedKids(kids)
  }

  ghost predicate WellFormedKids(kids: Kids) {
    match kids
    case End(gap) => Neutral(gap)
    case Value(gap, value, rest) => Neutral(gap) && WellFormed(value) && WellFormedKids(rest)
    case Member(gap, key, colon, value, rest) =>
      Neutral(gap) && Proper(key) && Neutral(colon) && WellFormed(value) && WellFormedKids(rest)
  }

  function PrintPieces(pieces: seq<Piece>): string {
    if pieces == [] then ""
    else (if pieces[0].Plain? then [pieces[0].c] else ['\\', pieces[0].c]) + PrintPieces(pieces[1..])
  }

  function Quote(pieces: seq<Piece>): string {
    "\"" + PrintPieces(pieces) + "\""
  }

  function Print(v: Json): string {
    match v
    case Atom(text) => text
    case Str(pieces) => Quote(pieces)
    case Nest(brace, kids) =>
      (if brace then "{" else "[") + PrintKids(kids) + (if brace then "}" else "]")
  }

  function PrintKids(kids: Kids): string {
    match kids
    case End(gap) => gap
    case Value(gap, value, rest) => gap + Print(value) + PrintKids(rest)
    case Member(gap, key, colon, value, rest) => gap + Quote(key) + colon + Print(value) + PrintKids(rest)
  }

  /** Nesting depth of the value itself, whatever its strings contain. */
  function Depth(v: Json): nat {
    match v
    case Nest(_, kids) => 1 + KidsDepth(kids)
    case _ => 0
  }

  function KidsDepth(kids: Kids): nat {
    match kids
    case End(_) => 0
    case Value(_, value, rest) => Max(Depth(value), KidsDepth(rest))
    case Member(_, _, _, value, rest) => Max(Depth(value), KidsDepth(rest))
  }

  function Max(a: nat, b: nat): nat {
    if a >= b then a else b
  }

  // ------------------------------------------------------------------ proofs

  lemma {:induction false} RunConcat(s: Scan, a: string, b: string)
    ensures Run(s, a + b) == if Run(s, a).None? then None else Run(Run(s, a).value, b)
    decreases a
  {
    if a == "" {
      assert a + b == b;
    } else {
      assert (a + b)[1..] == a[1..] + b;
      var next := Step(s, a[0]);
      if next.Some? {
        RunConcat(next.value, a[1..], b);
      }
    }
  }

  lemma {:induction false} RunNeutral(s: Scan, text: string)
    requires Neutral(text) && !s.quoted
    ensures Run(s, text) == Some(s)
  {
    if text != "" {
      assert text[0] in text;
      RunNeutral(s, text[1..]);
    }
  }

  lemma {:induction false} RunPieces(s: Scan, pieces: seq<Piece>)
    requires Proper(pieces) && s.quoted && !s.escaped
    ensures Run(s, PrintPieces(pieces)) == Some(s)
  {
    if pieces != [] {
      var p := pieces[0];
      assert p in pieces;
      var first := if p.Plain? then [p.c] else ['\\', p.c];
      RunPieces(s, pieces[1..]);
      RunConcat(s, first, PrintPieces(pieces[1..]));
      assert first[1..] == if p.Plain? then [] else [p.c];
      assert Run(s, first) == Some(s) by {
        if p.Escape? {
          assert [p.c][1..] == "";
          assert Run(s.(escaped := true), [p.c]) == Some(s);
        }
      }
    }
  }

  lemma RunOne(s: Scan, c: char)
    ensures Run(s, [c]) == Step(s, c)
  {
    assert [c][1..] == "";
  }

  lemma RunQuote(s: Scan, pieces: seq<Piece>)
    requires Proper(pieces) && !s.quoted && !s.escaped
    ensures Run(s, Quote(pieces)) == Some(s)
  {
    var inside := s.(quoted := true);
    RunOne(s, '"');
    RunOne(inside, '"');
    RunPieces(inside, pieces);
    RunConcat(inside, PrintPieces(pieces), "\"");
    RunConcat(s, "\"", PrintPieces(pieces) + "\"");
    assert Quote(pieces) == "\"" + (PrintPieces(pieces) + "\"");
  }

  /** Outside strings, a printed value is accepted exactly if it fits under the limit, and leaves no trace. */
  lemma RunValue(d: nat, v: Json)
    requires d <= LIMIT && WellFormed(v)
    ensures Run(Scan(d, false, false), Print(v)) ==
            if d + Depth(v) <= LIMIT then Some(Scan(d, false, false)) else None
    decreases v, 1
  {
    var s := Scan(d, false, false);
    match v
    case Atom(text) => RunNeutral(s, text);
    case Str(pieces) => RunQuote(s, pieces);
    case Nest(brace, kids) =>
      var open, close := if brace then '{' else '[', if brace then '}' else ']';
      assert Print(v) == [open] + (PrintKids(kids) + [close]);
      RunConcat(s, [open], PrintKids(kids) + [close]);
      RunOne(s, open);
      if d + 1 <= LIMIT {
        var t := Scan(d + 1, false, false);
        RunKids(d + 1, kids);
        RunConcat(t, PrintKids(kids), [close]);
        RunOne(t, close);
      }
  }

  lemma {:induction false} RunKids(d: nat, kids: Kids)
    requires d <= LIMIT && WellFormedKids(kids)
    ensures Run(Scan(d, false, false), PrintKids(kids)) ==
            if d + KidsDepth(kids) <= LIMIT then Some(Scan(d, false, false)) else None
    decreases kids, 0
  {
    var s := Scan(d, false, false);
    RunNeutral(s, kids.gap);
    match kids
    case End(_) =>
    case Value(gap, value, rest) =>
      RunConcat(s, gap + Print(value), PrintKids(rest));
      RunConcat(s, gap, Print(value));
      RunValue(d, value);
      RunKids(d, rest);
    case Member(gap, key, colon, value, rest) =>
      RunConcat(s, gap + Quote(key) + colon + Print(value), PrintKids(rest));
      RunConcat(s, gap + Quote(key) + colon, Print(value));
      RunConcat(s, gap + Quote(key), colon);
      RunConcat(s, gap, Quote(key));
      RunQuote(s, key);
      RunNeutral(s, colon);
      RunValue(d, value);
      RunKids(d, rest);
  }

  /**
    For every JSON value, in every layout and with any brackets, quotes and
    escapes inside its strings, the guard accepts its text if and only if its
    nesting depth is at most 64.
  */
  lemma GuardIsExact(v: Json, before: string, after: string)
    requires WellFormed(v) && Neutral(before) && Neutral(after)
    ensures Accepts(before + Print(v) + after) <==> Depth(v) <= LIMIT
  {
    RunConcat(START, before + Print(v), after);
    RunConcat(START, before, Print(v));
    RunNeutral(START, before);
    RunValue(0, v);
    RunNeutral(START, after);
  }

  // ------------------------------------------------- every text, JSON or not

  /**
    What the guard takes a text for: characters, quoted strings, and nested parts
    between an opening and a closing character, which need not be of one kind.
  */
  datatype Forest =
    | Empty
    | Other(c: char, rest: Forest)
    | Quoted(pieces: seq<Piece>, rest: Forest)
    | Nested(open: char, inner: Forest, close: char, rest: Forest)

  predicate Opens(c: char) {
    c == '[' || c == '{'
  }

  predicate Closes(c: char) {
    c == ']' || c == '}'
  }

  ghost predicate Sound(f: Forest) {
    match f
    case Empty => true
    case Other(c, rest) => c != '"' && !Opens(c) && !Closes(c) && Sound(rest)
    case Quoted(pieces, rest) => Proper(pieces) && Sound(rest)
    case Nested(open, inner, close, rest) => Opens(open) && Closes(close) && Sound(inner) && Sound(rest)
  }

  function Written(f: Forest): string {
    match f
    case Empty => ""
    case Other(c, rest) => [c] + Written(rest)
    case Quoted(pieces, rest) => Quote(pieces) + Written(rest)
    case Nested(open, inner, close, rest) => [open] + (Written(inner) + ([close] + Written(rest)))
  }

  function Height(f: Forest): nat {
    match f
    case Empty => 0
    case Other(_, rest) => Height(rest)
    case Quoted(_, rest) => Height(rest)
    case Nested(_, inner, _, rest) => Max(1 + Height(inner), Height(rest))
  }

  /** This text needs `height` more levels and leaves no trace. */
  ghost predicate Climbs(d: nat, text: string, height: nat) {
    Run(Scan(d, false, false), text) == if d + height <= LIMIT then Some(Scan(d, false, false)) else None
  }

  lemma RunNested(d: nat, open: char, inner: string, height: nat, close: char, rest: string, height': nat)
    requires d <= LIMIT && Opens(open) && Closes(close) && Climbs(d, rest, height')
    requires d + 1 <= LIMIT ==> Climbs(d + 1, inner, height)
    ensures Climbs(d, [open] + (inner + ([close] + rest)), Max(1 + height, height'))
  {
    var s, t := Scan(d, false, false), Scan(d + 1, false, false);
    RunConcat(s, [open], inner + ([close] + rest));
    RunOne(s, open);
    if d + 1 <= LIMIT {
      RunConcat(t, inner, [close] + rest);
      RunConcat(t, [close], rest);
      RunOne(t, close);
    }
  }

  lemma {:induction false} RunForest(d: nat, f: Forest)
    requires d <= LIMIT && Sound(f)
    ensures Climbs(d, Written(f), Height(f))
    decreases f
  {
    var s := Scan(d, false, false);
    match f
    case Empty =>
    case Other(c, rest) =>
      RunConcat(s, [c], Written(rest));
      RunOne(s, c);
      RunForest(d, rest);
    case Quoted(pieces, rest) =>
      RunConcat(s, Quote(pieces), Written(rest));
      RunQuote(s, pieces);
      RunForest(d, rest);
    case Nested(open, inner, close, rest) =>
      if d + 1 <= LIMIT { RunForest(d + 1, inner); }
      RunForest(d, rest);
      RunNested(d, open, Written(inner), Height(inner), close, Written(rest), Height(rest));
  }

  /** From here the scan ends outside strings at depth 0. */
  ghost predicate Ends(s: Scan, text: string) {
    var end := Run(s, text);
    end.Some? && !end.value.quoted && end.value.depth == 0
  }

  lemma EndsStep(s: Scan, text: string)
    ensures text == "" ==> (Ends(s, text) <==> !s.quoted && s.depth == 0)
    ensures text != "" ==> (Ends(s, text) <==> Step(s, text[0]).Some? && Ends(Step(s, text[0]).value, text[1..]))
  {
  }

  lemma Associates(a: string, b: string, c: string)
    ensures a + (b + c) == (a + b) + c
  {
  }

  /** The rest of a string, from after this piece on. */
  lemma NextPiece(p: Piece, pieces: seq<Piece>, rest: string)
    ensures (if p.Plain? then [p.c] else ['\\', p.c]) + (PrintPieces(pieces) + ("\"" + rest))
         == PrintPieces([p] + pieces) + ("\"" + rest)
  {
    assert ([p] + pieces)[1..] == pieces;
    Associates(if p.Plain? then [p.c] else ['\\', p.c], PrintPieces(pieces), "\"" + rest);
  }

  /** Inside a string: one more piece of it. */
  lemma ReadPiece(d: int, text: string) returns (piece: Piece, next: string)
    requires Ends(Scan(d, true, false), text) && text != "" && text[0] != '"'
    ensures Proper([piece]) && Ends(Scan(d, true, false), next) && |next| < |text|
    ensures text == (if piece.Plain? then [piece.c] else ['\\', piece.c]) + next
  {
    EndsStep(Scan(d, true, false), text);
    if text[0] == '\\' {
      EndsStep(Scan(d, true, true), text[1..]);
      piece, next := Escape(text[1]), text[1..][1..];
    } else {
      piece, next := Plain(text[0]), text[1..];
    }
  }

  /** Inside a string: up to its closing quote. */
  lemma {:induction false} ReadPieces(d: int, text: string) returns (pieces: seq<Piece>, rest: string)
    requires Ends(Scan(d, true, false), text)
    ensures Proper(pieces) && text == PrintPieces(pieces) + ("\"" + rest)
    ensures Ends(Scan(d, false, false), rest)
    decreases |text|
  {
    EndsStep(Scan(d, true, false), text);
    if text[0] == '"' {
      pieces, rest := [], text[1..];
    } else {
      var piece, next := ReadPiece(d, text);
      pieces, rest := ReadPieces(d, next);
      NextPiece(piece, pieces, rest);
      pieces := [piece] + pieces;
    }
  }

  /** A text that was read up to the end of a part at depth `d`. */
  ghost predicate IsRead(d: nat, text: string, f: Forest, close: char, rest: string) {
    && Sound(f) && d + Height(f) <= LIMIT
    && (d == 0 ==> text == Written(f))
    && (d > 0 ==> Closes(close) && text == Written(f) + ([close] + rest) && Ends(Scan(d - 1, false, false), rest))
  }

  lemma OtherRead(d: nat, c: char, tail: string, f: Forest, close: char, rest: string)
    requires IsRead(d, tail, f, close, rest) && c != '"' && !Opens(c) && !Closes(c)
    ensures IsRead(d, [c] + tail, Other(c, f), close, rest)
  {
    Associates([c], Written(f), [close] + rest);
  }

  lemma QuotedRead(d: nat, pieces: seq<Piece>, tail: string, f: Forest, close: char, rest: string)
    requires IsRead(d, tail, f, close, rest) && Proper(pieces)
    ensures IsRead(d, Quote(pieces) + tail, Quoted(pieces, f), close, rest)
  {
    Associates(Quote(pieces), Written(f), [close] + rest);
  }

  lemma NestedRead(d: nat, open: char, inner: Forest, end: char, tail: string, f: Forest, close: char, rest: string)
    requires IsRead(d, tail, f, close, rest) && Opens(open) && Closes(end) && Sound(inner) && d + 1 + Height(inner) <= LIMIT
    ensures IsRead(d, [open] + (Written(inner) + ([end] + tail)), Nested(open, inner, end, f), close, rest)
  {
    var more := [close] + rest;
    Associates([end], Written(f), more);
    Associates(Written(inner), [end] + Written(f), more);
    Associates([open], Written(inner) + ([end] + Written(f)), more);
  }

  /** The text after an opening quote. */
  lemma QuoteText(text: string, pieces: seq<Piece>, after: string)
    requires text != "" && text[0] == '"' && text[1..] == PrintPieces(pieces) + ("\"" + after)
    ensures text == Quote(pieces) + after
  {
    assert text == "\"" + text[1..];
    Associates(PrintPieces(pieces), "\"", after);
    Associates("\"", PrintPieces(pieces) + "\"", after);
    Associates("\"", PrintPieces(pieces), "\"");
  }

  /** Outside strings: up to the character that closes the part around, or to the end. */
  lemma {:induction false} ReadForest(d: nat, text: string) returns (f: Forest, close: char, rest: string)
    requires d <= LIMIT && Ends(Scan(d, false, false), text)
    ensures IsRead(d, text, f, close, rest)
    decreases |text|
  {
    EndsStep(Scan(d, false, false), text);
    if text == "" { return Empty, ']', ""; }
    var c, tail := text[0], text[1..];
    assert text == [c] + tail;
    if Closes(c) {
      f, close, rest := Empty, c, tail;
    } else if c == '"' {
      var pieces, after := ReadPieces(d, tail);
      f, close, rest := ReadForest(d, after);
      QuotedRead(d, pieces, after, f, close, rest);
      QuoteText(text, pieces, after);
      f := Quoted(pieces, f);
    } else if Opens(c) {
      var inner, end, after := ReadForest(d + 1, tail);
      f, close, rest := ReadForest(d, after);
      NestedRead(d, c, inner, end, after, f, close, rest);
      f := Nested(c, inner, end, f);
    } else {
      f, close, rest := ReadForest(d, tail);
      OtherRead(d, c, tail, f, close, rest);
      f := Other(c, f);
    }
  }

  /** This forest reads as the text, outside its strings no deeper than the limit. */
  ghost predicate Nests(f: Forest, text: string) {
    Sound(f) && Written(f) == text && Height(f) <= LIMIT
  }

  /** The guard accepts a text, JSON or not, if and only if it nests completely and at most 64 deep outside its strings. */
  lemma AcceptsIsExact(text: string)
    ensures Accepts(text) <==> exists f :: Nests(f, text)
  {
    if Accepts(text) {
      var f, _, _ := ReadForest(0, text);
      assert Nests(f, text);
    }
    if g :| Nests(g, text) {
      RunForest(0, g);
    }
  }
}
