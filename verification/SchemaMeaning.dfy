/**
 What a schema signature shows of a text, said on the lexemes it is written with: literals as they are, names and
 words up to the case of ASCII letters, and which of the three each is.
 */
module SchemaMeaning {
  import opened Wrappers
  import opened Basics
  import opened SchemaSignature

  /** The same character, or the same ASCII letter in the other case. */
  predicate SameLetter(a: char, b: char) {
    || a == b
    || ('A' <= a <= 'Z' && b as int == a as int + 32)
    || ('A' <= b <= 'Z' && a as int == b as int + 32)
  }

  predicate SameUpToCase(a: string, b: string) {
    |a| == |b| && forall i :: 0 <= i < |a| ==> SameLetter(a[i], b[i])
  }

  lemma LowerIff(a: string, b: string)
    ensures LowerCase(a) == LowerCase(b) <==> SameUpToCase(a, b)
  {
    forall i | 0 <= i < |a| && i < |b|
      ensures LowerCase(a)[i] == LowerCase(b)[i] <==> SameLetter(a[i], b[i])
    {
      LetterIff(a[i], b[i]);
    }
    if LowerCase(a) == LowerCase(b) {
      assert |LowerCase(a)| == |a| && |LowerCase(b)| == |b|;
    }
  }

  lemma LetterIff(a: char, b: char)
    ensures AsciiLower(a) == AsciiLower(b) <==> SameLetter(a, b)
  {
  }

  /** What is written without quotes. */
  function Bare(l: Lexeme): string
    requires !l.Quoted?
  {
    if l.Word? then l.text else [l.c]
  }

  predicate Literal(l: Lexeme) {
    l.Quoted? && l.open == '\''
  }

  /** Two literals must be the same text; two quoted names, or two things without quotes, up to case; others never agree. */
  predicate SameLexeme(l: Lexeme, m: Lexeme) {
    if Literal(l) || Literal(m) then Literal(l) && Literal(m) && l.text == m.text
    else if l.Quoted? || m.Quoted? then l.Quoted? && m.Quoted? && SameUpToCase(l.text, m.text)
    else SameUpToCase(Bare(l), Bare(m))
  }

  lemma SameTokenIff(l: Lexeme, m: Lexeme)
    ensures TokenOf(l) == TokenOf(m) <==> SameLexeme(l, m)
  {
    if l.Quoted? && m.Quoted? {
      LowerIff(l.text, m.text);
    } else if !l.Quoted? && !m.Quoted? {
      LowerIff(Bare(l), Bare(m));
    }
  }

  predicate SameLexemes(a: seq<Piece>, b: seq<Piece>) {
    |a| == |b| && forall i :: 0 <= i < |a| ==> SameLexeme(a[i].lexeme, b[i].lexeme)
  }

  lemma SameSpelledIff(a: seq<Piece>, b: seq<Piece>)
    ensures Spelled(a) == Spelled(b) <==> SameLexemes(a, b)
  {
    forall i | 0 <= i < |a| && i < |b|
      ensures Spelled(a)[i] == Spelled(b)[i] <==> SameLexeme(a[i].lexeme, b[i].lexeme)
    {
      SameTokenIff(a[i].lexeme, b[i].lexeme);
    }
    if Spelled(a) == Spelled(b) {
      assert |a| == |Spelled(a)| == |Spelled(b)| == |b|;
    }
  }

  /** Two texts within the limit have the same signature exactly if they are written with the same lexemes. */
  lemma SameSignatureIff(u: Classes, s: string, leadingS: seq<Gap>, a: seq<Piece>, t: string, leadingT: seq<Gap>, b: seq<Piece>)
    requires Sensible(u) && Renders(u, s, leadingS, a) && Renders(u, t, leadingT, b)
    requires Bytes(s) <= MAX_SCHEMA_SQL_BYTES && Bytes(t) <= MAX_SCHEMA_SQL_BYTES
    ensures Signature(u, s).Ok? && Signature(u, t).Ok?
    ensures Signature(u, s) == Signature(u, t) <==> SameLexemes(a, b)
  {
    RewritingKeepsTokens(u, leadingS, a);
    RewritingKeepsTokens(u, leadingT, b);
    SignatureDecides(u, s, t);
    SameSpelledIff(a, b);
  }

  /** So the case of a literal shows, and that of a name does not. */
  lemma CaseShows(text: string, other: string, open: char)
    requires text != other && SameUpToCase(text, other) && Quote(open) && open != '\''
    ensures !SameLexeme(Quoted('\'', text), Quoted('\'', other))
    ensures SameLexeme(Quoted(open, text), Quoted(open, other)) && SameLexeme(Word(text), Word(other))
    ensures !SameLexeme(Quoted('\'', text), Quoted(open, text)) && !SameLexeme(Word(text), Quoted(open, text))
  {
  }

  /**
     Two texts that differ in one lexeme alone: if that is a literal their signatures differ, if it is a name, written in
     any quotes and any case, they are the same.
   */
  lemma OneLexeme(u: Classes, s: string, leading: seq<Gap>, a: seq<Piece>, t: string, k: nat, l: Lexeme)
    requires Sensible(u) && Renders(u, s, leading, a) && k < |a| && l != a[k].lexeme
    requires Renders(u, t, leading, a[k := Piece(l, a[k].gaps)])
    requires Bytes(s) <= MAX_SCHEMA_SQL_BYTES && Bytes(t) <= MAX_SCHEMA_SQL_BYTES
    ensures Literal(a[k].lexeme) ==> Signature(u, s) != Signature(u, t)
    ensures a[k].lexeme.Quoted? && l.Quoted? && !Literal(a[k].lexeme) && !Literal(l) && SameUpToCase(a[k].lexeme.text, l.text) ==>
      Signature(u, s) == Signature(u, t)
  {
    var b := a[k := Piece(l, a[k].gaps)];
    SameSignatureIff(u, s, leading, a, t, leading, b);
    forall i | 0 <= i < |a| && i != k
      ensures SameLexeme(a[i].lexeme, b[i].lexeme)
    {
      SameTokenIff(a[i].lexeme, a[i].lexeme);
    }
    assert SameLexemes(a, b) <==> SameLexeme(a[k].lexeme, l);
  }

  // ---- the limit ---------------------------------------------------------------------------------------------

  predicate Ascii(s: string) {
    forall i :: 0 <= i < |s| ==> s[i] < 0x80 as char
  }

  /** The length is that of the UTF-8 encoding: between one and four bytes a character, one exactly for ASCII. */
  lemma {:induction false} BytesMeaning(s: string)
    ensures |s| <= Bytes(s) <= 4 * |s|
    ensures Bytes(s) == |s| <==> Ascii(s)
  {
    if s != "" {
      BytesMeaning(s[1..]);
      AsciiCons(s);
      assert 1 <= CharBytes(s[0]) <= 4;
    }
  }

  lemma AsciiCons(s: string)
    requires s != ""
    ensures Ascii(s) <==> s[0] < 0x80 as char && Ascii(s[1..])
  {
    assert s == [s[0]] + s[1..];
    if Ascii(s[1..]) && s[0] < 0x80 as char {
      forall i | 0 <= i < |s|
        ensures s[i] < 0x80 as char
      {
        assert i > 0 ==> s[i] == s[1..][i - 1];
      }
    }
    if Ascii(s) {
      forall i | 0 <= i < |s| - 1
        ensures s[1..][i] < 0x80 as char
      {
        assert s[1..][i] == s[i + 1];
      }
    }
  }

  /** A text above 64 KiB is refused, whatever it is. */
  lemma TooLong(u: Classes, sql: string)
    ensures Bytes(sql) > 65536 ==> Signature(u, sql) == Err
    ensures Bytes(sql) <= 65536 ==> (Signature(u, sql).Ok? <==> Tokens(u, sql).Some?)
  {
  }
}
