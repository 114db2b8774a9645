/**
 The signature of a piece of schema SQL: its tokens, each written as a kind, the length of its
 text in bytes, a colon and the text. Two pieces of SQL with the same signature are the same
 tokens, and spacing, comments and the case of ASCII letters outside literals do not show.
 */
module SchemaSignature {
  import opened Wrappers
  import opened Basics

  const MAX_SCHEMA_SQL_BYTES := 64 * 1024

  /** The Unicode classes of characters. */
  datatype Classes = Classes(space: char -> bool, alphanumeric: char -> bool)

  datatype Token = Token(kind: char, text: string)

  predicate WordChar(u: Classes, c: char) {
    u.alphanumeric(c) || c == '_' || c == '$'
  }

  predicate Quote(c: char) {
    c == '\'' || c == '"' || c == '`' || c == '['
  }

  function Closing(open: char): char {
    if open == '[' then ']' else open
  }

  function LowerCase(s: string): (l: string)
    ensures |l| == |s|
  {
    seq(|s|, i requires 0 <= i < |s| => AsciiLower(s[i]))
  }

  /** Characters are Unicode scalar values, lengths are those of their UTF-8 encoding. */
  function CharBytes(c: char): nat {
    if c < 0x80 as char then 1 else if c < 0x800 as char then 2 else if c < 0x10000 as char then 3 else 4
  }

  function Bytes(s: string): nat {
    if s == "" then 0 else CharBytes(s[0]) + Bytes(s[1..])
  }

  // ---- tokens ------------------------------------------------------------------------------

  /** What follows a line comment. */
  function AfterLine(s: string): (rest: string)
    ensures |rest| <= |s|
  {
    if s == "" then "" else if s[0] == '\n' || s[0] == '\r' then s[1..] else AfterLine(s[1..])
  }

  /** What follows a block comment, if it ends. */
  function AfterBlock(s: string): (rest: Option<string>)
    ensures rest.Some? ==> |rest.value| < |s|
  {
    if s == "" then None
    else if |s| > 1 && s[0] == '*' && s[1] == '/' then Some(s[2..])
    else AfterBlock(s[1..])
  }

  /** The text of a quoted token and what follows it, if it ends; a doubled quote stands for one, except in brackets. */
  function Unquoted(open: char, s: string): (r: Option<(string, string)>)
    ensures r.Some? ==> |r.value.1| < |s|
  {
    if s == "" then None
    else if s[0] != Closing(open) then Prefixed(s[0], Unquoted(open, s[1..]))
    else if open != '[' && |s| > 1 && s[1] == Closing(open) then Prefixed(s[0], Unquoted(open, s[2..]))
    else Some(("", s[1..]))
  }

  function Prefixed(c: char, r: Option<(string, string)>): Option<(string, string)> {
    match r
    case None => None
    case Some((text, rest)) => Some(([c] + text, rest))
  }

  function WordLength(u: Classes, s: string): (n: nat)
    ensures n <= |s|
    ensures forall i :: 0 <= i < n ==> WordChar(u, s[i])
    ensures n < |s| ==> !WordChar(u, s[n])
  {
    if s == "" || !WordChar(u, s[0]) then 0 else 1 + WordLength(u, s[1..])
  }

  function QuotedToken(open: char, text: string): Token {
    if open == '\'' then Token('s', text) else Token('q', LowerCase(text))
  }

  function Cons(t: Token, ts: Option<seq<Token>>): Option<seq<Token>> {
    match ts
    case None => None
    case Some(ts) => Some([t] + ts)
  }

  /** The tokens of a text; none when a quote or a block comment does not end. */
  function Tokens(u: Classes, s: string): Option<seq<Token>>
    decreases |s|
  {
    if s == "" then Some([])
    else if u.space(s[0]) then Tokens(u, s[1..])
    else if |s| > 1 && s[0] == '-' && s[1] == '-' then Tokens(u, AfterLine(s[2..]))
    else if |s| > 1 && s[0] == '/' && s[1] == '*' then
      match AfterBlock(s[2..])
      case None => None
      case Some(rest) => Tokens(u, rest)
    else if Quote(s[0]) then
      match Unquoted(s[0], s[1..])
      case None => None
      case Some((text, rest)) => Cons(QuotedToken(s[0], text), Tokens(u, rest))
    else if WordChar(u, s[0]) then
      var n := 1 + WordLength(u, s[1..]);
      Cons(Token('t', LowerCase(s[..n])), Tokens(u, s[n..]))
    else
      Cons(Token('t', LowerCase(s[..1])), Tokens(u, s[1..]))
  }

  // ---- the encoding of tokens --------------------------------------------------------------

  function Digit(n: nat): char
    requires n < 10
  {
    '0' + n as char
  }

  function Decimal(n: nat): (digits: string)
    ensures digits != "" && forall i :: 0 <= i < |digits| ==> '0' <= digits[i] <= '9'
    ensures |digits| == 1 <==> n < 10
  {
    if n < 10 then [Digit(n)] else Decimal(n / 10) + [Digit(n % 10)]
  }

  lemma {:induction false} DecimalInjective(a: nat, b: nat)
    requires Decimal(a) == Decimal(b)
    ensures a == b
  {
    var s := Decimal(a);
    if a < 10 && b < 10 {
      assert s[0] == Digit(a) == Digit(b);
    } else if a >= 10 && b >= 10 {
      assert s[..|s| - 1] == Decimal(a / 10) == Decimal(b / 10);
      DecimalInjective(a / 10, b / 10);
      assert s[|s| - 1] == Digit(a % 10) == Digit(b % 10);
    }
  }

  function EncodeToken(t: Token): string {
    [t.kind] + Decimal(Bytes(t.text)) + ":" + t.text
  }

  function Encode(ts: seq<Token>): (code: string)
    ensures code == "" <==> ts == []
  {
    if ts == [] then "" else EncodeToken(ts[0]) + Encode(ts[1..])
  }

  /** Digits up to the first colon. */
  lemma ColonEnds(a: string, x: string, b: string, y: string)
    requires a + ":" + x == b + ":" + y
    requires ':' !in a && ':' !in b
    ensures a == b && x == y
  {
    var s := a + ":" + x;
    assert s[|a|] == ':' && s[|b|] == ':';
    assert forall i :: 0 <= i < |a| ==> s[i] == a[i];
    assert forall i :: 0 <= i < |b| ==> s[i] == b[i];
    assert |a| == |b|;
    assert a == s[..|a|] && b == s[..|b|];
    assert x == s[|a| + 1..] && y == s[|b| + 1..];
  }

  /** A text is determined by its length in bytes and what it begins. */
  lemma {:induction false} BytesCut(a: string, x: string, b: string, y: string)
    requires a + x == b + y && Bytes(a) == Bytes(b)
    ensures a == b && x == y
  {
    if a == "" || b == "" {
      assert a == b == "";
      assert x == a + x && y == b + y;
    } else {
      assert (a + x)[0] == a[0] && (b + y)[0] == b[0];
      assert (a + x)[1..] == a[1..] + x && (b + y)[1..] == b[1..] + y;
      BytesCut(a[1..], x, b[1..], y);
      assert a == [a[0]] + a[1..] && b == [b[0]] + b[1..];
    }
  }

  lemma FirstToken(t: Token, rest: string)
    ensures var s := EncodeToken(t) + rest; s != "" && s[0] == t.kind && s[1..] == Decimal(Bytes(t.text)) + ":" + (t.text + rest)
  {
  }

  /** An encoding can be read back in one way only. */
  lemma {:induction false} EncodeInjective(a: seq<Token>, b: seq<Token>)
    requires Encode(a) == Encode(b)
    ensures a == b
  {
    if a != [] {
      FirstToken(a[0], Encode(a[1..]));
      FirstToken(b[0], Encode(b[1..]));
      ColonEnds(Decimal(Bytes(a[0].text)), a[0].text + Encode(a[1..]), Decimal(Bytes(b[0].text)), b[0].text + Encode(b[1..]));
      DecimalInjective(Bytes(a[0].text), Bytes(b[0].text));
      BytesCut(a[0].text, Encode(a[1..]), b[0].text, Encode(b[1..]));
      EncodeInjective(a[1..], b[1..]);
      assert a == [a[0]] + a[1..] && b == [b[0]] + b[1..];
    }
  }

  function Finished(signature: string, ts: Option<seq<Token>>): Result<string> {
    match ts
    case None => Err
    case Some(ts) => Ok(signature + Encode(ts))
  }

  ghost function Signature(u: Classes, sql: string): Result<string> {
    if Bytes(sql) > MAX_SCHEMA_SQL_BYTES then Err else Finished("", Tokens(u, sql))
  }

  /** Two accepted texts have the same signature exactly when they are the same tokens. */
  lemma SignatureDecides(u: Classes, a: string, b: string)
    requires Signature(u, a).Ok? && Signature(u, b).Ok?
    ensures Signature(u, a) == Signature(u, b) <==> Tokens(u, a) == Tokens(u, b)
  {
    var x, y := Tokens(u, a).value, Tokens(u, b).value;
    assert "" + Encode(x) == Encode(x) && "" + Encode(y) == Encode(y);
    if Signature(u, a) == Signature(u, b) {
      EncodeInjective(x, y);
    }
  }

  // ---- rewriting a text without changing its tokens -----------------------------------------

  /** What may stand between tokens; only at the end of the text is a line comment not ended by a newline. */
  datatype Gap = Space(c: char) | Line(text: string, end: string) | Block(text: string)

  /** One way of writing a token. */
  datatype Lexeme = Word(text: string) | Symbol(c: char) | Quoted(open: char, text: string)

  predicate OneLine(text: string, end: string) {
    '\n' !in text && '\r' !in text && (end == "\n" || end == "\r" || end == "")
  }

  predicate ValidGap(u: Classes, g: Gap) {
    match g
    case Space(c) => u.space(c)
    case Line(text, end) => OneLine(text, end)
    case Block(text) => forall i :: 0 <= i < |text| - 1 ==> !(text[i] == '*' && text[i + 1] == '/')
  }

  predicate Open(g: Gap) {
    g.Line? && g.end == ""
  }

  predicate ValidGaps(u: Classes, gaps: seq<Gap>, last: bool) {
    && (forall i :: 0 <= i < |gaps| ==> ValidGap(u, gaps[i]))
    && (forall i :: 0 <= i < |gaps| && Open(gaps[i]) ==> last && i == |gaps| - 1)
  }

  predicate ValidLexeme(u: Classes, l: Lexeme) {
    match l
    case Word(text) => text != "" && forall i :: 0 <= i < |text| ==> WordChar(u, text[i])
    case Symbol(c) => !u.space(c) && !Quote(c) && !WordChar(u, c)
    case Quoted(open, text) => Quote(open) && (open == '[' ==> ']' !in text)
  }

  function GapText(g: Gap): string {
    match g
    case Space(c) => [c]
    case Line(text, end) => "--" + text + end
    case Block(text) => "/*" + text + "*/"
  }

  function GapsText(gaps: seq<Gap>): string {
    if gaps == [] then "" else GapText(gaps[0]) + GapsText(gaps[1..])
  }

  function Doubled(open: char, text: string): string {
    if text == "" then ""
    else (if open != '[' && text[0] == open then [open, open] else [text[0]]) + Doubled(open, text[1..])
  }

  function Spelling(l: Lexeme): string {
    match l
    case Word(text) => text
    case Symbol(c) => [c]
    case Quoted(open, text) => [open] + Doubled(open, text) + [Closing(open)]
  }

  function TokenOf(l: Lexeme): Token {
    match l
    case Word(text) => Token('t', LowerCase(text))
    case Symbol(c) => Token('t', LowerCase([c]))
    case Quoted(open, text) => QuotedToken(open, text)
  }

  /** The classes keep spaces, letters and the characters that open comments and quotes apart. */
  predicate Sensible(u: Classes) {
    && (forall c: char :: u.space(c) ==> !WordChar(u, c) && !Quote(c) && c != '-' && c != '/' && c != '*')
    && (forall c: char :: u.alphanumeric(c) ==> !Quote(c) && c != '-' && c != '/' && c != '*')
  }

  lemma Cut(a: string, b: string, n: nat)
    requires n <= |a|
    ensures (a + b)[n..] == a[n..] + b && (a + b)[..n] == a[..n]
  {
  }

  lemma {:induction false} AfterLineEnds(text: string, end: string, s: string)
    requires OneLine(text, end) && (end == "" ==> s == "")
    ensures AfterLine(text + end + s) == s
  {
    var whole := text + end + s;
    if text == "" && end == "" {
      assert whole == "";
    } else if text == "" {
      assert whole[0] == end[0] && whole[1..] == s;
    } else {
      assert whole[0] == text[0] && whole[1..] == text[1..] + end + s;
      AfterLineEnds(text[1..], end, s);
    }
  }

  lemma {:induction false} AfterBlockEnds(text: string, s: string)
    requires forall i :: 0 <= i < |text| - 1 ==> !(text[i] == '*' && text[i + 1] == '/')
    ensures AfterBlock(text + "*/" + s) == Some(s)
  {
    var whole := text + "*/" + s;
    if text == "" {
      assert whole[0] == '*' && whole[1] == '/' && whole[2..] == s;
    } else {
      assert whole[0] == text[0] && whole[1..] == text[1..] + "*/" + s;
      assert whole[1] == if |text| > 1 then text[1] else '*';
      AfterBlockEnds(text[1..], s);
    }
  }

  lemma UnquotedStep(open: char, c: char, rest: string)
    ensures c != Closing(open) ==> Unquoted(open, [c] + rest) == Prefixed(c, Unquoted(open, rest))
    ensures open != '[' ==> Unquoted(open, [open, open] + rest) == Prefixed(open, Unquoted(open, rest))
    ensures open == '[' || rest == "" || rest[0] != open ==> Unquoted(open, [Closing(open)] + rest) == Some(("", rest))
  {
    assert ([c] + rest)[1..] == rest && ([open, open] + rest)[2..] == rest && ([Closing(open)] + rest)[1..] == rest;
  }

  lemma {:induction false} UnquotedDoubled(open: char, text: string, s: string)
    requires Quote(open) && (open == '[' ==> ']' !in text)
    requires open != '[' && s != "" ==> s[0] != open
    ensures Unquoted(open, Doubled(open, text) + ([Closing(open)] + s)) == Some((text, s))
  {
    if text == "" {
      UnquotedStep(open, open, s);
      assert Doubled(open, text) + ([Closing(open)] + s) == [Closing(open)] + s;
    } else {
      var head := if open != '[' && text[0] == open then [open, open] else [text[0]];
      UnquotedDoubled(open, text[1..], s);
      Associative(head, Doubled(open, text[1..]), [Closing(open)] + s);
      UnquotedStep(open, text[0], Doubled(open, text[1..]) + ([Closing(open)] + s));
      assert text == [text[0]] + text[1..];
    }
  }

  lemma {:induction false} WordEnds(u: Classes, text: string, s: string)
    requires forall i :: 0 <= i < |text| ==> WordChar(u, text[i])
    requires s != "" ==> !WordChar(u, s[0])
    ensures WordLength(u, text + s) == |text|
  {
    if text != "" {
      assert (text + s)[0] == text[0] && (text + s)[1..] == text[1..] + s;
      WordEnds(u, text[1..], s);
    } else {
      assert text + s == s;
    }
  }

  lemma CommentOpens(mark: string, text: string, end: string, s: string)
    requires |mark| == 2
    ensures var whole := mark + text + end + s;
      whole[0] == mark[0] && whole[1] == mark[1] && whole[2..] == text + end + s
  {
  }

  lemma GapSkipped(u: Classes, g: Gap, s: string)
    requires Sensible(u) && ValidGap(u, g) && (Open(g) ==> s == "")
    ensures Tokens(u, GapText(g) + s) == Tokens(u, s)
  {
    var whole := GapText(g) + s;
    match g
    case Space(c) =>
      assert whole[0] == c && whole[1..] == s;
    case Line(text, end) =>
      CommentOpens("--", text, end, s);
      AfterLineEnds(text, end, s);
    case Block(text) =>
      CommentOpens("/*", text, "*/", s);
      AfterBlockEnds(text, s);
  }

  lemma {:induction false} GapsSkipped(u: Classes, gaps: seq<Gap>, s: string)
    requires Sensible(u) && ValidGaps(u, gaps, s == "")
    ensures Tokens(u, GapsText(gaps) + s) == Tokens(u, s)
  {
    if gaps == [] {
      assert GapsText(gaps) + s == s;
    } else {
      assert ValidGaps(u, gaps[1..], s == "");
      GapsSkipped(u, gaps[1..], s);
      GapSkipped(u, gaps[0], GapsText(gaps[1..]) + s);
      assert GapsText(gaps) + s == GapText(gaps[0]) + (GapsText(gaps[1..]) + s);
    }
  }

  /** The rest cannot be taken for a continuation of the lexeme. */
  predicate Apart(u: Classes, l: Lexeme, s: string) {
    s != "" ==>
      match l
      case Word(_) => !WordChar(u, s[0])
      case Symbol(c) => !(c == '-' && s[0] == '-') && !(c == '/' && s[0] == '*')
      case Quoted(open, _) => open == '[' || s[0] != open
  }

  lemma WordRead(u: Classes, text: string, s: string)
    requires Sensible(u) && ValidLexeme(u, Word(text)) && Apart(u, Word(text), s)
    ensures Tokens(u, text + s) == Cons(Token('t', LowerCase(text)), Tokens(u, s))
  {
    var whole := text + s;
    WordEnds(u, text[1..], s);
    Cut(text, s, 1);
    Cut(text, s, |text|);
    assert whole[0] == text[0] && WordChar(u, text[0]);
    assert text[|text|..] + s == s && text[..|text|] == text;
  }

  lemma SymbolRead(u: Classes, c: char, s: string)
    requires ValidLexeme(u, Symbol(c)) && Apart(u, Symbol(c), s)
    ensures Tokens(u, [c] + s) == Cons(Token('t', LowerCase([c])), Tokens(u, s))
  {
    var whole := [c] + s;
    assert whole[0] == c && whole[1..] == s && whole[..1] == [c];
    assert |whole| > 1 ==> whole[1] == s[0];
  }

  lemma QuotedRead(u: Classes, open: char, text: string, s: string)
    requires Sensible(u) && ValidLexeme(u, Quoted(open, text)) && Apart(u, Quoted(open, text), s)
    ensures Tokens(u, [open] + (Doubled(open, text) + ([Closing(open)] + s))) == Cons(QuotedToken(open, text), Tokens(u, s))
  {
    var tail := Doubled(open, text) + ([Closing(open)] + s);
    UnquotedDoubled(open, text, s);
    assert ([open] + tail)[0] == open && ([open] + tail)[1..] == tail;
    assert !u.space(open) && open != '-' && open != '/';
  }

  lemma LexemeRead(u: Classes, l: Lexeme, s: string)
    requires Sensible(u) && ValidLexeme(u, l) && Apart(u, l, s)
    ensures Tokens(u, Spelling(l) + s) == Cons(TokenOf(l), Tokens(u, s))
  {
    match l
    case Word(text) => WordRead(u, text, s);
    case Symbol(c) => SymbolRead(u, c, s);
    case Quoted(open, text) =>
      QuotedRead(u, open, text, s);
      Associative([open] + Doubled(open, text), [Closing(open)], s);
      Associative([open], Doubled(open, text), [Closing(open)] + s);
  }

  // ---- whole texts ---------------------------------------------------------------------------------

  /** A lexeme and the gaps after it. */
  datatype Piece = Piece(lexeme: Lexeme, gaps: seq<Gap>)

  function Text(pieces: seq<Piece>): string {
    if pieces == [] then "" else Spelling(pieces[0].lexeme) + (GapsText(pieces[0].gaps) + Text(pieces[1..]))
  }

  /** Without a gap between them the two lexemes would be read as one, or as the beginning of a comment. */
  predicate Merge(l: Lexeme, m: Lexeme) {
    match (l, m)
    case (Word(_), Word(_)) => true
    case (Quoted(a, _), Quoted(b, _)) => a == b && a != '['
    case (Symbol(a), Symbol(b)) => (a == '-' && b == '-') || (a == '/' && b == '*')
    case _ => false
  }

  predicate ValidPieces(u: Classes, pieces: seq<Piece>) {
    && (forall i :: 0 <= i < |pieces| ==> ValidLexeme(u, pieces[i].lexeme))
    && (forall i :: 0 <= i < |pieces| ==> ValidGaps(u, pieces[i].gaps, i == |pieces| - 1))
    && (forall i :: 0 <= i < |pieces| - 1 && Merge(pieces[i].lexeme, pieces[i + 1].lexeme) ==> pieces[i].gaps != [])
  }

  /** A dash whose first gap is a line comment: the three dashes open the comment and the dash is gone. */
  predicate Swallowed(p: Piece) {
    p.lexeme == Symbol('-') && p.gaps != [] && p.gaps[0].Line?
  }

  function TokensOf(pieces: seq<Piece>): seq<Token> {
    if pieces == [] then []
    else if Swallowed(pieces[0]) then TokensOf(pieces[1..])
    else [TokenOf(pieces[0].lexeme)] + TokensOf(pieces[1..])
  }

  function Spelled(pieces: seq<Piece>): seq<Token> {
    seq(|pieces|, i requires 0 <= i < |pieces| => TokenOf(pieces[i].lexeme))
  }

  lemma GapsApart(u: Classes, l: Lexeme, gaps: seq<Gap>, s: string)
    requires Sensible(u) && ValidLexeme(u, l) && gaps != [] && ValidGap(u, gaps[0])
    requires l == Symbol('-') ==> !gaps[0].Line?
    ensures Apart(u, l, GapsText(gaps) + s)
  {
    assert (GapsText(gaps) + s)[0] == GapText(gaps[0])[0];
  }

  lemma TouchingApart(u: Classes, l: Lexeme, m: Lexeme, s: string)
    requires Sensible(u) && ValidLexeme(u, l) && ValidLexeme(u, m)
    ensures Apart(u, l, Spelling(m) + s) <==> !Merge(l, m)
  {
    assert (Spelling(m) + s)[0] == Spelling(m)[0];
  }

  lemma SwallowedRead(u: Classes, gaps: seq<Gap>, s: string)
    requires Sensible(u) && gaps != [] && gaps[0].Line? && ValidGaps(u, gaps, s == "")
    ensures Tokens(u, "-" + (GapsText(gaps) + s)) == Tokens(u, s)
  {
    var Line(text, end) := gaps[0];
    var longer, after := Line("-" + text, end), GapsText(gaps[1..]);
    GapsSkipped(u, gaps[1..], s);
    assert Open(longer) ==> after + s == "";
    GapSkipped(u, longer, after + s);
    DashedLine(text, end);
    Associative(GapText(gaps[0]), after, s);
    Associative("-", GapText(gaps[0]), after + s);
  }

  lemma DashedLine(text: string, end: string)
    ensures "-" + GapText(Line(text, end)) == GapText(Line("-" + text, end))
  {
  }

  lemma PieceApart(u: Classes, pieces: seq<Piece>)
    requires Sensible(u) && ValidPieces(u, pieces) && pieces != [] && !Swallowed(pieces[0])
    ensures Apart(u, pieces[0].lexeme, GapsText(pieces[0].gaps) + Text(pieces[1..]))
  {
    var p, rest := pieces[0], Text(pieces[1..]);
    if p.gaps != [] {
      GapsApart(u, p.lexeme, p.gaps, rest);
    } else {
      assert GapsText(p.gaps) + rest == rest;
      if |pieces| > 1 {
        TouchingApart(u, p.lexeme, pieces[1].lexeme, GapsText(pieces[1].gaps) + Text(pieces[1..][1..]));
      }
    }
  }

  /** Reading a text gives back its lexemes, but for the swallowed dashes. */
  lemma {:induction false} TextRead(u: Classes, pieces: seq<Piece>)
    requires Sensible(u) && ValidPieces(u, pieces)
    ensures Tokens(u, Text(pieces)) == Some(TokensOf(pieces))
  {
    if pieces != [] {
      var p, rest := pieces[0], Text(pieces[1..]);
      TextRead(u, pieces[1..]);
      GapsSkipped(u, p.gaps, rest);
      if Swallowed(p) {
        SwallowedRead(u, p.gaps, rest);
      } else {
        PieceApart(u, pieces);
        LexemeRead(u, p.lexeme, GapsText(p.gaps) + rest);
      }
    }
  }

  lemma {:induction false} NoneSwallowedIff(pieces: seq<Piece>)
    ensures |TokensOf(pieces)| <= |pieces|
    ensures TokensOf(pieces) == Spelled(pieces) <==> forall i :: 0 <= i < |pieces| ==> !Swallowed(pieces[i])
  {
    if pieces != [] {
      var rest := pieces[1..];
      NoneSwallowedIff(rest);
      assert Spelled(pieces) == [TokenOf(pieces[0].lexeme)] + Spelled(rest);
      assert forall i :: 0 <= i < |rest| ==> rest[i] == pieces[i + 1];
      if TokensOf(pieces) == Spelled(pieces) {
        assert !Swallowed(pieces[0]);
        assert TokensOf(pieces)[1..] == TokensOf(rest) && Spelled(pieces)[1..] == Spelled(rest);
      }
    }
  }

  /**
     Spacing, comments, the quoting of names and the case of ASCII letters outside literals can be changed at
     will: the tokens stay what is spelled out, exactly unless a line comment directly follows a dash.
   */
  lemma RewritingKeepsTokens(u: Classes, leading: seq<Gap>, pieces: seq<Piece>)
    requires Sensible(u) && ValidPieces(u, pieces) && ValidGaps(u, leading, pieces == [])
    ensures Tokens(u, GapsText(leading) + Text(pieces)) == Some(Spelled(pieces)) <==>
      forall i :: 0 <= i < |pieces| ==> !Swallowed(pieces[i])
  {
    GapsSkipped(u, leading, Text(pieces));
    TextRead(u, pieces);
    NoneSwallowedIff(pieces);
  }

  /** Before a line comment a minus is no token any more; before a newline it is one. */
  lemma MinusIsSwallowed(u: Classes)
    requires Sensible(u) && u.space('\n')
    ensures Tokens(u, "-" + "\n") == Some([Token('t', LowerCase("-"))])
    ensures Tokens(u, "-" + "--\n") == Some([])
  {
    var spaced, swallowed := [Piece(Symbol('-'), [Space('\n')])], [Piece(Symbol('-'), [Line("", "\n")])];
    MinusText(Space('\n'));
    MinusText(Line("", "\n"));
    assert ValidLexeme(u, Symbol('-'));
    TextRead(u, spaced);
    TextRead(u, swallowed);
    assert GapText(Space('\n')) == "\n" && GapText(Line("", "\n")) == "--\n";
  }

  lemma MinusText(g: Gap)
    ensures Text([Piece(Symbol('-'), [g])]) == "-" + GapText(g)
    ensures TokensOf([Piece(Symbol('-'), [g])]) == if g.Line? then [] else [Token('t', LowerCase("-"))]
  {
    var p := Piece(Symbol('-'), [g]);
    assert [p][1..] == [] && [g][1..] == [];
    assert GapsText([g]) == GapText(g) && Text([]) == "";
  }

  // ---- every accepted text is such a text ---------------------------------------------------------------

  /** The text is written in this way. */
  ghost predicate Renders(u: Classes, s: string, leading: seq<Gap>, pieces: seq<Piece>) {
    && ValidGaps(u, leading, pieces == []) && ValidPieces(u, pieces) && (forall i :: 0 <= i < |pieces| ==> !Swallowed(pieces[i]))
    && s == GapsText(leading) + Text(pieces)
  }

  lemma {:induction false} LineSplit(s: string) returns (text: string, end: string)
    ensures s == text + end + AfterLine(s) && OneLine(text, end)
    ensures end == "" ==> AfterLine(s) == ""
  {
    if s == "" {
      text, end := "", "";
    } else if s[0] == '\n' || s[0] == '\r' {
      text, end := "", s[..1];
    } else {
      var t, e := LineSplit(s[1..]);
      text, end := [s[0]] + t, e;
      assert s == [s[0]] + s[1..];
    }
  }

  lemma {:induction false} BlockSplit(s: string) returns (text: string)
    requires AfterBlock(s).Some?
    ensures s == text + "*/" + AfterBlock(s).value
    ensures forall i :: 0 <= i < |text| - 1 ==> !(text[i] == '*' && text[i + 1] == '/')
  {
    if s[0] == '*' && s[1] == '/' {
      text := "";
    } else {
      var t := BlockSplit(s[1..]);
      text := [s[0]] + t;
      assert s == [s[0]] + s[1..];
      assert t != "" ==> t[0] == s[1];
    }
  }

  /** A quoted token is read as it is spelled, and the quote that ends it is not doubled. */
  lemma {:induction false} UnquotedSpelled(open: char, s: string)
    requires Quote(open) && Unquoted(open, s).Some?
    ensures var (text, rest) := Unquoted(open, s).value;
      && s == Doubled(open, text) + ([Closing(open)] + rest) && (open == '[' ==> ']' !in text)
      && (open != '[' && rest != "" ==> rest[0] != open)
  {
    var (text, rest) := Unquoted(open, s).value;
    if s[0] != Closing(open) {
      UnquotedSpelled(open, s[1..]);
      assert text[1..] == Unquoted(open, s[1..]).value.0;
      assert s == [s[0]] + s[1..];
    } else if open != '[' && |s| > 1 && s[1] == Closing(open) {
      UnquotedSpelled(open, s[2..]);
      assert text[1..] == Unquoted(open, s[2..]).value.0;
      assert s == [s[0], s[1]] + s[2..];
    } else {
      assert s == [s[0]] + s[1..];
    }
  }

  predicate OpensComment(s: string) {
    |s| > 1 && ((s[0] == '-' && s[1] == '-') || (s[0] == '/' && s[1] == '*'))
  }

  /** No comment or space begins here, so a token does. */
  predicate TokenBegins(u: Classes, s: string) {
    s != "" && !u.space(s[0]) && !OpensComment(s)
  }

  /** The lexeme that a text begins with, and the rest. */
  lemma FirstLexeme(u: Classes, s: string) returns (l: Lexeme, rest: string)
    requires Sensible(u) && TokenBegins(u, s) && Tokens(u, s).Some?
    ensures ValidLexeme(u, l) && s == Spelling(l) + rest && Apart(u, l, rest)
    ensures Tokens(u, rest).Some? && Tokens(u, s).value == [TokenOf(l)] + Tokens(u, rest).value
  {
    if Quote(s[0]) {
      UnquotedSpelled(s[0], s[1..]);
      var (text, after) := Unquoted(s[0], s[1..]).value;
      l, rest := Quoted(s[0], text), after;
      Associative([s[0]] + Doubled(s[0], text), [Closing(s[0])], rest);
      Associative([s[0]], Doubled(s[0], text), [Closing(s[0])] + rest);
      assert s == [s[0]] + s[1..];
    } else if WordChar(u, s[0]) {
      var n := 1 + WordLength(u, s[1..]);
      l, rest := Word(s[..n]), s[n..];
      assert s == s[..n] + s[n..];
      assert rest != "" ==> rest[0] == s[1..][n - 1];
    } else {
      l, rest := Symbol(s[0]), s[1..];
      assert s == [s[0]] + s[1..];
    }
    LexemeRead(u, l, rest);
  }

  lemma SomethingWritten(u: Classes, leading: seq<Gap>, pieces: seq<Piece>)
    requires ValidPieces(u, pieces) && (leading != [] || pieces != [])
    ensures GapsText(leading) + Text(pieces) != ""
  {
    if leading != [] {
      assert |GapText(leading[0])| > 0;
    } else {
      assert |Spelling(pieces[0].lexeme)| > 0;
    }
  }

  lemma GapBefore(u: Classes, g: Gap, s: string, leading: seq<Gap>, pieces: seq<Piece>)
    requires ValidGap(u, g) && (Open(g) ==> s == "") && Renders(u, s, leading, pieces)
    ensures Renders(u, GapText(g) + s, [g] + leading, pieces)
  {
    if leading != [] || pieces != [] {
      SomethingWritten(u, leading, pieces);
    }
    assert ([g] + leading)[1..] == leading;
    Associative(GapText(g), GapsText(leading), Text(pieces));
  }

  /** The lexeme goes with what is written after it. */
  ghost predicate Fits(l: Lexeme, leading: seq<Gap>, pieces: seq<Piece>) {
    && !Swallowed(Piece(l, leading))
    && (pieces != [] && Merge(l, pieces[0].lexeme) ==> leading != [])
  }

  lemma ApartFits(u: Classes, l: Lexeme, leading: seq<Gap>, pieces: seq<Piece>)
    requires Sensible(u) && ValidLexeme(u, l) && ValidPieces(u, pieces) && Apart(u, l, GapsText(leading) + Text(pieces))
    ensures Fits(l, leading, pieces)
  {
    if leading != [] {
      assert (GapsText(leading) + Text(pieces))[0] == GapText(leading[0])[0];
    } else if pieces != [] {
      assert GapsText(leading) + Text(pieces) == Text(pieces);
      TouchingApart(u, l, pieces[0].lexeme, GapsText(pieces[0].gaps) + Text(pieces[1..]));
    }
  }

  lemma OnePieceMore(u: Classes, p: Piece, pieces: seq<Piece>)
    requires ValidLexeme(u, p.lexeme) && ValidGaps(u, p.gaps, pieces == []) && ValidPieces(u, pieces)
    requires Fits(p.lexeme, p.gaps, pieces)
    ensures ValidPieces(u, [p] + pieces)
  {
    var whole := [p] + pieces;
    assert forall i :: 0 < i < |whole| ==> whole[i] == pieces[i - 1];
    forall i | 0 <= i < |whole|
      ensures ValidLexeme(u, whole[i].lexeme) && ValidGaps(u, whole[i].gaps, i == |whole| - 1)
    {
      if i > 0 {
        assert ValidGaps(u, pieces[i - 1].gaps, i - 1 == |pieces| - 1);
      }
    }
    forall i | 0 <= i < |whole| - 1 && Merge(whole[i].lexeme, whole[i + 1].lexeme)
      ensures whole[i].gaps != []
    {
      if i > 0 {
        assert Merge(pieces[i - 1].lexeme, pieces[i - 1 + 1].lexeme);
      }
    }
  }

  lemma OnePieceText(p: Piece, pieces: seq<Piece>)
    ensures GapsText([]) + Text([p] + pieces) == Spelling(p.lexeme) + (GapsText(p.gaps) + Text(pieces))
    ensures Spelled([p] + pieces) == [TokenOf(p.lexeme)] + Spelled(pieces)
  {
    assert ([p] + pieces)[1..] == pieces;
  }

  lemma LexemeBefore(u: Classes, l: Lexeme, s: string, leading: seq<Gap>, pieces: seq<Piece>)
    requires Sensible(u) && ValidLexeme(u, l) && Apart(u, l, s) && Renders(u, s, leading, pieces)
    ensures Renders(u, Spelling(l) + s, [], [Piece(l, leading)] + pieces)
    ensures Spelled([Piece(l, leading)] + pieces) == [TokenOf(l)] + Spelled(pieces)
  {
    ApartFits(u, l, leading, pieces);
    OnePieceMore(u, Piece(l, leading), pieces);
    OnePieceText(Piece(l, leading), pieces);
  }

  /** Every accepted text is written in some such way, with its tokens spelled out. */
  lemma {:induction false} Written(u: Classes, s: string) returns (leading: seq<Gap>, pieces: seq<Piece>)
    requires Sensible(u) && Tokens(u, s).Some?
    ensures Renders(u, s, leading, pieces) && Spelled(pieces) == Tokens(u, s).value
    decreases |s|
  {
    if s == "" {
      leading, pieces := [], [];
    } else if TokenBegins(u, s) {
      var l, rest := FirstLexeme(u, s);
      assert |Spelling(l)| > 0;
      var gaps, more := Written(u, rest);
      LexemeBefore(u, l, rest, gaps, more);
      leading, pieces := [], [Piece(l, gaps)] + more;
    } else {
      var g, rest := FirstGap(u, s);
      var gaps, more := Written(u, rest);
      GapBefore(u, g, rest, gaps, more);
      leading, pieces := [g] + gaps, more;
    }
  }

  lemma FirstGap(u: Classes, s: string) returns (g: Gap, rest: string)
    requires Sensible(u) && s != "" && !TokenBegins(u, s) && Tokens(u, s).Some?
    ensures ValidGap(u, g) && (Open(g) ==> rest == "") && s == GapText(g) + rest && |rest| < |s|
    ensures Tokens(u, rest) == Tokens(u, s)
  {
    if u.space(s[0]) {
      g, rest := Space(s[0]), s[1..];
      assert s == [s[0]] + s[1..];
    } else if s[0] == '-' {
      var text, end := LineSplit(s[2..]);
      g, rest := Line(text, end), AfterLine(s[2..]);
      assert s == "--" + s[2..];
      Associative("--", text + end, rest);
      Associative("--", text, end);
    } else {
      var text := BlockSplit(s[2..]);
      g, rest := Block(text), AfterBlock(s[2..]).value;
      assert s == "/*" + s[2..];
      Associative("/*", text + "*/", rest);
      Associative("/*", text, "*/");
    }
    GapSkipped(u, g, rest);
  }

  /** The scanner accepts exactly the texts so written, with the tokens spelled out. */
  lemma AcceptedIff(u: Classes, s: string, ts: seq<Token>)
    requires Sensible(u)
    ensures Tokens(u, s) == Some(ts) <==> exists leading, pieces :: Renders(u, s, leading, pieces) && Spelled(pieces) == ts
  {
    if Tokens(u, s) == Some(ts) {
      var leading, pieces := Written(u, s);
    }
    if leading, pieces :| Renders(u, s, leading, pieces) && Spelled(pieces) == ts {
      RewritingKeepsTokens(u, leading, pieces);
    }
  }

  /** A text within the limit has the signature of an accepted one exactly if it is a way of writing the same tokens. */
  lemma RewritingKeepsSignature(u: Classes, s: string, t: string)
    requires Sensible(u) && Signature(u, s).Ok? && Bytes(t) <= MAX_SCHEMA_SQL_BYTES
    ensures Signature(u, t) == Signature(u, s) <==>
      exists leading, pieces :: Renders(u, t, leading, pieces) && Spelled(pieces) == Tokens(u, s).value
  {
    AcceptedIff(u, t, Tokens(u, s).value);
    if Signature(u, t).Ok? {
      SignatureDecides(u, t, s);
    }
  }

  // ---- the scanner -----------------------------------------------------------------------------

  lemma Drop(s: string, i: nat, n: nat)
    requires i + n <= |s|
    ensures s[i..][n..] == s[i + n..]
    ensures forall k :: 0 <= k < |s| - i ==> s[i..][k] == s[i + k]
  {
  }

  lemma Appended(signature: string, t: Token, ts: Option<seq<Token>>)
    ensures Finished(signature, Cons(t, ts)) == Finished(signature + EncodeToken(t), ts)
  {
    if ts.Some? {
      assert ([t] + ts.value)[1..] == ts.value;
      Associative(signature, EncodeToken(t), Encode(ts.value));
    }
  }

  method SkipLine(sql: string, start: nat) returns (i: nat)
    requires start <= |sql|
    ensures start <= i <= |sql| && sql[i..] == AfterLine(sql[start..])
  {
    i := start;
    while i < |sql|
      invariant start <= i <= |sql| && AfterLine(sql[i..]) == AfterLine(sql[start..])
    {
      Drop(sql, i, 1);
      i := i + 1;
      if sql[i - 1] == '\n' || sql[i - 1] == '\r' {
        return;
      }
    }
  }

  method SkipBlock(sql: string, start: nat) returns (terminated: bool, i: nat)
    requires start <= |sql|
    ensures start <= i <= |sql| && AfterBlock(sql[start..]) == if terminated then Some(sql[i..]) else None
  {
    i, terminated := start, false;
    while i < |sql|
      invariant start <= i <= |sql| && AfterBlock(sql[i..]) == AfterBlock(sql[start..])
    {
      Drop(sql, i, 1);
      if sql[i] == '*' && i + 1 < |sql| && sql[i + 1] == '/' {
        Drop(sql, i, 2);
        return true, i + 2;
      }
      i := i + 1;
    }
  }

  function Behind(text: string, r: Option<(string, string)>): Option<(string, string)> {
    match r
    case None => None
    case Some((more, rest)) => Some((text + more, rest))
  }

  lemma BehindOne(text: string, c: char, r: Option<(string, string)>)
    ensures Behind(text, Prefixed(c, r)) == Behind(text + [c], r)
  {
    if r.Some? {
      Associative(text, [c], r.value.0);
    }
  }

  method ReadQuoted(sql: string, start: nat, open: char) returns (terminated: bool, quoted: string, i: nat)
    requires start <= |sql|
    ensures start <= i <= |sql|
    ensures Unquoted(open, sql[start..]) == if terminated then Some((quoted, sql[i..])) else None
  {
    var end := Closing(open);
    quoted, i, terminated := "", start, false;
    assert Behind("", Unquoted(open, sql[start..])) == Unquoted(open, sql[start..]) by {
      if Unquoted(open, sql[start..]).Some? {
        assert "" + Unquoted(open, sql[start..]).value.0 == Unquoted(open, sql[start..]).value.0;
      }
    }
    while i < |sql|
      invariant start <= i <= |sql| && Behind(quoted, Unquoted(open, sql[i..])) == Unquoted(open, sql[start..])
    {
      Drop(sql, i, 1);
      if sql[i] == end {
        if open != '[' && i + 1 < |sql| && sql[i + 1] == end {
          Drop(sql, i, 2);
          BehindOne(quoted, end, Unquoted(open, sql[i + 2..]));
          quoted := quoted + [end];
          i := i + 2;
        } else {
          assert quoted + "" == quoted;
          return true, quoted, i + 1;
        }
      } else {
        BehindOne(quoted, sql[i], Unquoted(open, sql[i + 1..]));
        quoted := quoted + [sql[i]];
        i := i + 1;
      }
    }
  }

  lemma LowerStep(sql: string, start: nat, i: nat)
    requires start <= i < |sql|
    ensures LowerCase(sql[start..i + 1]) == LowerCase(sql[start..i]) + [AsciiLower(sql[i])]
  {
  }

  method ReadWord(u: Classes, sql: string, start: nat) returns (token: string, i: nat)
    requires start < |sql|
    ensures start < i <= |sql| && i - start == 1 + WordLength(u, sql[start + 1..])
    ensures token == LowerCase(sql[start..i])
  {
    token, i := [AsciiLower(sql[start])], start + 1;
    assert token == LowerCase(sql[start..i]);
    while i < |sql| && WordChar(u, sql[i])
      invariant start < i <= |sql| && token == LowerCase(sql[start..i])
      invariant i - start + WordLength(u, sql[i..]) == 1 + WordLength(u, sql[start + 1..])
    {
      Drop(sql, i, 1);
      LowerStep(sql, start, i);
      token := token + [AsciiLower(sql[i])];
      i := i + 1;
    }
  }

  /** The first token of a text where one begins, with the place after it. */
  function FirstOf(u: Classes, s: string): (r: Option<(Token, nat)>)
    requires TokenBegins(u, s)
    ensures r.Some? ==> 0 < r.value.1 <= |s|
    ensures Tokens(u, s) == if r.Some? then Cons(r.value.0, Tokens(u, s[r.value.1..])) else None
  {
    if Quote(s[0]) then
      match Unquoted(s[0], s[1..])
      case None => None
      case Some((text, rest)) =>
        UnquotedIsSuffix(s[0], s[1..]);
        Some((QuotedToken(s[0], text), |s| - |rest|))
    else if WordChar(u, s[0]) then
      var n := 1 + WordLength(u, s[1..]);
      Some((Token('t', LowerCase(s[..n])), n))
    else Some((Token('t', LowerCase(s[..1])), 1))
  }

  lemma {:induction false} UnquotedIsSuffix(open: char, s: string)
    ensures var r := Unquoted(open, s); r.Some? ==> r.value.1 == s[|s| - |r.value.1|..]
  {
    if s != "" {
      UnquotedIsSuffix(open, s[1..]);
      if |s| > 1 {
        UnquotedIsSuffix(open, s[2..]);
      }
    }
  }

  method ReadToken(u: Classes, sql: string, i: nat) returns (t: Option<Token>, after: nat)
    requires i < |sql| && TokenBegins(u, sql[i..])
    ensures i < after <= |sql|
    ensures FirstOf(u, sql[i..]) == if t.Some? then Some((t.value, after - i)) else None
  {
    var c := sql[i];
    Drop(sql, i, 1);
    if Quote(c) {
      var terminated, quoted, end := ReadQuoted(sql, i + 1, c);
      t, after := if terminated then Some(QuotedToken(c, quoted)) else None, end;
    } else if WordChar(u, c) {
      var token, end := ReadWord(u, sql, i);
      assert sql[i..][..end - i] == sql[i..end];
      t, after := Some(Token('t', token)), end;
    } else {
      assert sql[i..][..1] == [c] && LowerCase([c]) == [AsciiLower(c)];
      t, after := Some(Token('t', [AsciiLower(c)])), i + 1;
    }
  }

  method SkipGap(u: Classes, sql: string, i: nat) returns (terminated: bool, after: nat)
    requires i < |sql| && !TokenBegins(u, sql[i..])
    ensures i < after <= |sql|
    ensures Tokens(u, sql[i..]) == if terminated then Tokens(u, sql[after..]) else None
  {
    Drop(sql, i, 1);
    if u.space(sql[i]) {
      return true, i + 1;
    }
    Drop(sql, i, 2);
    if sql[i] == '-' {
      after := SkipLine(sql, i + 2);
      return true, after;
    }
    terminated, after := SkipBlock(sql, i + 2);
  }

  method SchemaSqlSignature(u: Classes, sql: string) returns (r: Result<string>)
    ensures r == Signature(u, sql)
  {
    if Bytes(sql) > MAX_SCHEMA_SQL_BYTES {
      return Err;
    }
    var signature, i := "", 0;
    assert sql[0..] == sql;
    while i < |sql|
      invariant i <= |sql| && Finished(signature, Tokens(u, sql[i..])) == Finished("", Tokens(u, sql))
    {
      if TokenBegins(u, sql[i..]) {
        var token, after := ReadToken(u, sql, i);
        Drop(sql, i, after - i);
        if token.None? {
          return Err;
        }
        Appended(signature, token.value, Tokens(u, sql[after..]));
        signature, i := signature + EncodeToken(token.value), after;
      } else {
        var terminated, after := SkipGap(u, sql, i);
        if !terminated {
          return Err;
        }
        i := after;
      }
    }
    assert sql[i..] == "" && signature + "" == signature;
    return Ok(signature);
  }
}
