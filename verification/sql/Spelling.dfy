/** Spellings that make no difference: the case of keywords, blanks, the two signs for "not equal", and whether a
    number is quoted. */
module SqlSpelling {
  import opened Options
  import opened SqlNumbers
  import opened SqlLexer
  import opened SqlParser

  /** The same letter, or the small one for a capital. */
  predicate SameLetter(c: char, capital: char) { c == capital || ('A' <= capital <= 'Z' && c as int == capital as int + 32) }

  /** A keyword is read letter by letter, in whatever case, and from identifiers only. */
  lemma KeywordsInAnyCase(t: Token, keyword: string)
    requires Keyword(keyword)
    ensures MatchesKeyword(t, keyword) <==>
              t.kind == Identifier && |t.text| == |keyword| && forall i :: 0 <= i < |keyword| ==> SameLetter(t.text[i], keyword[i])
  {
    if t.kind == Identifier && |t.text| == |keyword| {
      forall i | 0 <= i < |keyword| ensures Upper(t.text)[i] == keyword[i] <==> SameLetter(t.text[i], keyword[i]) {
        SmallLetter(t.text[i], keyword[i]);
      }
      if forall i :: 0 <= i < |keyword| ==> SameLetter(t.text[i], keyword[i]) { assert Upper(t.text) == keyword; }
    }
  }

  lemma SmallLetter(c: char, capital: char)
    requires 'A' <= capital <= 'Z'
    ensures UpperChar(c) == capital <==> SameLetter(c, capital)
  {
  }

  /** Blanks before a token are passed over, and six characters are blanks. */
  lemma BlanksDoNotMatter(c: char, rest: string)
    ensures IsSpace(c) <==> c in " \t\n\r" || c as int == 11 || c as int == 12
    ensures IsSpace(c) ==> Lex([c] + rest) == Lex(rest)
  {
    assert ([c] + rest)[1..] == rest;
  }

  lemma NotEqualEitherWay(rest: string)
    ensures Lex("<>" + rest) == Lex("!=" + rest)
    ensures NextLexeme("<>" + rest) == Some(Lexeme(Token(Symbol, "!="), 2))
  {
    hide ReadQuoted, LeadingDigits, LeadingIdent, Lex;
    assert ("<>" + rest)[..2] == "<>" && ("!=" + rest)[..2] == "!=";
    LexemeOfSymbol("<>" + rest);
    LexemeOfSymbol("!=" + rest);
    TwoTaken("<>" + rest, rest);
    TwoTaken("!=" + rest, rest);
  }

  lemma TwoTaken(s: string, rest: string)
    requires |s| >= 2 && s[2..] == rest && NextLexeme(s) == Some(Lexeme(Token(Symbol, "!="), 2))
    ensures Lex(s) == (if Lex(rest).None? then None else Some([Token(Symbol, "!=")] + Lex(rest).value))
  {
    hide NextLexeme;
  }

  /** A number stands for itself, quoted or not. */
  lemma NumbersUnquoted(text: string, rest: seq<Token>)
    requires rest != []
    ensures ExpectLiteral([Token(Number, text)] + rest) == ExpectLiteral([Token(TokenKind.Text, text)] + rest) == Read((text, rest))
  {
    assert ([Token(Number, text)] + rest)[1..] == rest && ([Token(TokenKind.Text, text)] + rest)[1..] == rest;
  }
}
