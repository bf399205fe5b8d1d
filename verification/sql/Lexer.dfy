/** The SQL lexer, and that it undoes writing tokens out with blanks between them. */
module SqlLexer {
  import opened Options
  import opened SqlNumbers

  datatype TokenKind = Identifier | Number | Text | Symbol | End

  /** For a text literal, `text` is its contents without quotes. */
  datatype Token = Token(kind: TokenKind, text: string)

  const END: Token := Token(End, "")

  predicate IsLetter(c: char) { 'a' <= c <= 'z' || 'A' <= c <= 'Z' }

  predicate IsIdentStart(c: char) { IsLetter(c) || c == '_' }

  predicate IsIdentChar(c: char) { IsLetter(c) || IsDigit(c) || c == '_' }

  function LeadingIdent(s: string): (r: string)
    ensures |r| <= |s|
  {
    if s != [] && IsIdentChar(s[0]) then [s[0]] + LeadingIdent(s[1..]) else []
  }

  lemma {:induction false} DigitsShorter(s: string)
    ensures |LeadingDigits(s)| <= |s|
    decreases |s|
  {
    if s != [] { DigitsShorter(s[1..]); }
  }

  /** The contents of a quoted literal after its opening quote, and what follows the closing one; a
      doubled quote stands for a quote. None stands for an unterminated literal. */
  function ReadQuoted(s: string): (r: Option<(string, string)>)
    ensures r.Some? ==> |r.value.1| < |s|
    decreases |s|
  {
    if s == [] then None
    else if s[0] == '\'' then
      if |s| > 1 && s[1] == '\'' then
        match ReadQuoted(s[2..])
        case None => None
        case Some(rest) => Some((['\''] + rest.0, rest.1))
      else Some(("", s[1..]))
    else
      match ReadQuoted(s[1..])
      case None => None
      case Some(rest) => Some(([s[0]] + rest.0, rest.1))
  }

  predicate IsSingle(c: char) { c in "(),;*=<>." }

  function DoubleSymbol(s: string): Option<string> {
    if |s| < 2 then None
    else if s[..2] == "<=" then Some("<=")
    else if s[..2] == ">=" then Some(">=")
    else if s[..2] == "!=" then Some("!=")
    else if s[..2] == "<>" then Some("!=")
    else None
  }

  /** One turn of the lexer loop on the rest of the text: what it consumes and the token it yields.
      None stands for an exception. */
  datatype Lexeme = Blank | Lexeme(token: Token, size: nat)

  function NextLexeme(s: string): (r: Option<Lexeme>)
    requires s != []
    ensures r.Some? && r.value.Lexeme? ==> 0 < r.value.size <= |s|
  {
    var c := s[0];
    DigitsShorter(s);
    DigitsShorter(s[1..]);
    if IsSpace(c) then Some(Blank)
    else if IsIdentStart(c) then Some(Lexeme(Token(Identifier, LeadingIdent(s)), |LeadingIdent(s)|))
    else if IsDigit(c) then Some(Lexeme(Token(Number, LeadingDigits(s)), |LeadingDigits(s)|))
    else if c == '-' && |s| > 1 && IsDigit(s[1]) then
      Some(Lexeme(Token(Number, ['-'] + LeadingDigits(s[1..])), 1 + |LeadingDigits(s[1..])|))
    else if c == '\'' then
      match ReadQuoted(s[1..])
      case None => None
      case Some(rest) => Some(Lexeme(Token(Text, rest.0), |s| - |rest.1|))
    else if DoubleSymbol(s).Some? then Some(Lexeme(Token(Symbol, DoubleSymbol(s).value), 2))
    else if IsSingle(c) then Some(Lexeme(Token(Symbol, [c]), 1))
    else None
  }

  function Lex(s: string): Option<seq<Token>>
    decreases |s|
  {
    if s == [] then Some([END])
    else
      match NextLexeme(s)
      case None => None
      case Some(Blank) => Lex(s[1..])
      case Some(Lexeme(token, size)) =>
        match Lex(s[size..])
        case None => None
        case Some(rest) => Some([token] + rest)
  }

  // ------------------------------------------------------------------------------------------
  // Token sequences
  // ------------------------------------------------------------------------------------------

  /** An end token, and only at the end. */
  predicate Ended(ts: seq<Token>) {
    |ts| > 0 && ts[|ts| - 1].kind == End && forall i :: 0 <= i < |ts| - 1 ==> ts[i].kind != End
  }

  predicate IsIdentifier(s: string) {
    s != [] && IsIdentStart(s[0]) && forall i :: 0 <= i < |s| ==> IsIdentChar(s[i])
  }

  /** Identifier tokens hold identifiers. */
  predicate Named(ts: seq<Token>) { forall i :: 0 <= i < |ts| && ts[i].kind == Identifier ==> IsIdentifier(ts[i].text) }

  lemma {:induction false} LeadingIdentChars(s: string)
    ensures forall i :: 0 <= i < |LeadingIdent(s)| ==> IsIdentChar(LeadingIdent(s)[i])
    decreases |s|
  {
    hide IsIdentChar;
    if s != [] { LeadingIdentChars(s[1..]); }
  }

  /** Whatever the text, the tokens end with the end token and identifiers are identifiers. */
  lemma {:induction false} LexShape(s: string)
    ensures Lex(s).Some? ==> Ended(Lex(s).value) && Named(Lex(s).value)
    decreases |s|
  {
    hide ReadQuoted, LeadingDigits, DoubleSymbol, IsSingle;
    if s != [] {
      match NextLexeme(s)
      case None =>
      case Some(Blank) => LexShape(s[1..]);
      case Some(Lexeme(token, size)) =>
        LexShape(s[size..]);
        LeadingIdentChars(s);
    }
  }

  // ------------------------------------------------------------------------------------------
  // Writing tokens
  // ------------------------------------------------------------------------------------------

  function Doubled(s: string): string {
    if s == [] then [] else (if s[0] == '\'' then "''" else [s[0]]) + Doubled(s[1..])
  }

  function Render(t: Token): string { if t.kind == Text then "'" + Doubled(t.text) + "'" else t.text }

  /** The text of tokens up to the end token. */
  function RenderAll(ts: seq<Token>): string
    decreases |ts|
  {
    if ts == [] || ts[0] == END then "" else Render(ts[0]) + (" " + RenderAll(ts[1..]))
  }

  predicate IsSymbol(s: string) { s == "<=" || s == ">=" || s == "!=" || (|s| == 1 && IsSingle(s[0])) }

  /** Tokens a text can consist of. */
  predicate Writable(t: Token) {
    match t.kind
    case Identifier => IsIdentifier(t.text)
    case Number => ValidInt(t.text)
    case Text => true
    case Symbol => IsSymbol(t.text)
    case End => false
  }

  lemma {:induction false} QuotedReads(s: string, rest: string)
    requires rest != [] && rest[0] != '\''
    ensures ReadQuoted(Doubled(s) + "'" + rest) == Some((s, rest))
    decreases |s|
  {
    if s == [] {
      assert Doubled(s) + "'" + rest == "'" + rest;
    } else {
      QuotedReads(s[1..], rest);
      var head := if s[0] == '\'' then "''" else [s[0]];
      assert Doubled(s) + "'" + rest == head + (Doubled(s[1..]) + "'" + rest);
      assert s == [s[0]] + s[1..];
    }
  }

  lemma {:induction false} IdentReads(s: string, rest: string)
    requires (forall i :: 0 <= i < |s| ==> IsIdentChar(s[i])) && rest != [] && !IsIdentChar(rest[0])
    ensures LeadingIdent(s + rest) == s
    decreases |s|
  {
    hide IsIdentChar;
    if s == [] {
      assert s + rest == rest;
    } else {
      IdentReads(s[1..], rest);
      assert (s + rest)[1..] == s[1..] + rest;
    }
  }

  lemma {:induction false} DigitsRead(s: string, rest: string)
    requires AllDigits(s) && rest != [] && !IsDigit(rest[0])
    ensures LeadingDigits(s + rest) == s
    decreases |s|
  {
    hide IsDigit;
    if s == [] {
      assert s + rest == rest;
    } else {
      DigitsRead(s[1..], rest);
      assert (s + rest)[1..] == s[1..] + rest;
    }
  }

  lemma ReadsIdentifier(text: string, rest: string)
    requires IsIdentifier(text)
    ensures NextLexeme(text + (" " + rest)) == Some(Lexeme(Token(Identifier, text), |text|))
  {
    IdentReads(text, " " + rest);
  }

  lemma LexemeOfDigit(s: string)
    requires s != [] && IsDigit(s[0])
    ensures NextLexeme(s) == Some(Lexeme(Token(Number, LeadingDigits(s)), |LeadingDigits(s)|))
  {
    hide LeadingDigits, LeadingIdent, ReadQuoted, DoubleSymbol, IsSingle;
  }

  lemma LexemeOfMinus(s: string)
    requires |s| > 1 && s[0] == '-' && IsDigit(s[1])
    ensures NextLexeme(s) == Some(Lexeme(Token(Number, ['-'] + LeadingDigits(s[1..])), 1 + |LeadingDigits(s[1..])|))
  {
    hide LeadingDigits, LeadingIdent, ReadQuoted, DoubleSymbol, IsSingle;
  }

  lemma LexemeOfQuote(s: string, text: string, rest: string)
    requires s != [] && s[0] == '\'' && ReadQuoted(s[1..]) == Some((text, rest))
    ensures NextLexeme(s) == Some(Lexeme(Token(Text, text), |s| - |rest|))
  {
    hide LeadingDigits, LeadingIdent, ReadQuoted, DoubleSymbol, IsSingle;
  }

  lemma SymbolStart(c: char)
    requires c in "(),;*=<>.!"
    ensures !IsSpace(c) && !IsIdentStart(c) && !IsDigit(c) && c != '-' && c != '\''
  {
  }

  lemma LexemeOfSymbol(s: string)
    requires s != [] && s[0] in "(),;*=<>.!"
    ensures NextLexeme(s) ==
            if DoubleSymbol(s).Some? then Some(Lexeme(Token(Symbol, DoubleSymbol(s).value), 2))
            else if IsSingle(s[0]) then Some(Lexeme(Token(Symbol, [s[0]]), 1))
            else None
  {
    hide LeadingDigits, LeadingIdent, ReadQuoted, DoubleSymbol, IsSingle, IsSpace, IsIdentStart, IsDigit;
    SymbolStart(s[0]);
  }

  lemma ReadsNumber(text: string, rest: string)
    requires ValidInt(text)
    ensures NextLexeme(text + (" " + rest)) == Some(Lexeme(Token(Number, text), |text|))
  {
    hide NextLexeme, LeadingDigits;
    var s := text + (" " + rest);
    if text[0] == '-' {
      DigitsRead(text[1..], " " + rest);
      assert s[1..] == text[1..] + (" " + rest);
      assert text == ['-'] + text[1..];
      LexemeOfMinus(s);
    } else {
      DigitsRead(text, " " + rest);
      LexemeOfDigit(s);
    }
  }

  lemma ReadsText(text: string, rest: string)
    ensures NextLexeme(Render(Token(Text, text)) + (" " + rest)) == Some(Lexeme(Token(Text, text), |Render(Token(Text, text))|))
  {
    hide NextLexeme, ReadQuoted, Doubled;
    QuotedReads(text, " " + rest);
    var s := Render(Token(Text, text)) + (" " + rest);
    assert s[1..] == Doubled(text) + "'" + (" " + rest);
    LexemeOfQuote(s, text, " " + rest);
  }

  lemma ReadsSymbol(text: string, rest: string)
    requires IsSymbol(text)
    ensures NextLexeme(text + (" " + rest)) == Some(Lexeme(Token(Symbol, text), |text|))
  {
    hide NextLexeme;
    var s := text + (" " + rest);
    assert s[0] == text[0];
    LexemeOfSymbol(s);
    if |text| == 2 {
      assert s[..2] == text;
    } else {
      assert s[..2] == text + " ";
      assert s[..2][1] == ' ';
      assert [s[0]] == text;
    }
  }

  lemma ReadsToken(t: Token, rest: string)
    requires Writable(t)
    ensures NextLexeme(Render(t) + (" " + rest)) == Some(Lexeme(t, |Render(t)|))
  {
    hide NextLexeme;
    match t.kind
    case Identifier => ReadsIdentifier(t.text, rest);
    case Number => ReadsNumber(t.text, rest);
    case Text => ReadsText(t.text, rest);
    case Symbol => ReadsSymbol(t.text, rest);
    case End =>
  }

  lemma SpaceIsBlank(rest: string)
    ensures Lex(" " + rest) == Lex(rest)
  {
    assert NextLexeme(" " + rest) == Some(Blank);
    assert (" " + rest)[1..] == rest;
  }

  lemma RenderNotEmpty(t: Token)
    requires Writable(t)
    ensures Render(t) != ""
  {
  }

  lemma LexStep(t: Token, rest: string)
    requires Writable(t)
    ensures Lex(Render(t) + (" " + rest)) == match Lex(rest) case None => None case Some(more) => Some([t] + more)
  {
    hide NextLexeme, Render, Writable;
    ReadsToken(t, rest);
    RenderNotEmpty(t);
    SpaceIsBlank(rest);
    assert (Render(t) + (" " + rest))[|Render(t)|..] == " " + rest;
  }

  /** Writable tokens and the end token. */
  predicate Finished(ts: seq<Token>) {
    ts != [] && if |ts| == 1 then ts[0] == END else Writable(ts[0]) && Finished(ts[1..])
  }

  /** Tokenizing undoes writing, for every sequence of tokens. */
  lemma {:induction false} LexRender(ts: seq<Token>)
    requires Finished(ts)
    ensures Lex(RenderAll(ts)) == Some(ts)
    decreases |ts|
  {
    hide Lex, Render, Writable;
    if |ts| == 1 {
      LexNothing();
      assert ts == [END];
    } else {
      NotEnd(ts[0]);
      LexStep(ts[0], RenderAll(ts[1..]));
      LexRender(ts[1..]);
      assert [ts[0]] + ts[1..] == ts;
    }
  }

  lemma NotEnd(t: Token)
    requires Writable(t)
    ensures t != END
  {
  }

  lemma LexNothing()
    ensures Lex("") == Some([END])
  {
  }

  // ------------------------------------------------------------------------------------------
  // The loop
  // ------------------------------------------------------------------------------------------

  lemma LeadingIdentStep(sql: string, i: nat)
    requires i <= |sql|
    ensures LeadingIdent(sql[i..]) == if i < |sql| && IsIdentChar(sql[i]) then [sql[i]] + LeadingIdent(sql[i + 1..]) else []
  {
    hide IsIdentChar;
    assert i < |sql| ==> sql[i..][1..] == sql[i + 1..];
  }

  method ScanIdent(sql: string, start: nat) returns (i: nat)
    requires start <= |sql|
    ensures start <= i <= |sql| && sql[start..i] == LeadingIdent(sql[start..])
  {
    hide LeadingIdent, IsIdentChar;
    i := start;
    while i < |sql| && IsIdentChar(sql[i])
      invariant start <= i <= |sql|
      invariant LeadingIdent(sql[start..]) == sql[start..i] + LeadingIdent(sql[i..])
    {
      LeadingIdentStep(sql, i);
      assert sql[start..i + 1] == sql[start..i] + [sql[i]];
      i := i + 1;
    }
    LeadingIdentStep(sql, i);
  }

  lemma LeadingDigitsStep(sql: string, i: nat)
    requires i <= |sql|
    ensures LeadingDigits(sql[i..]) == if i < |sql| && IsDigit(sql[i]) then [sql[i]] + LeadingDigits(sql[i + 1..]) else []
  {
    hide IsDigit;
    assert i < |sql| ==> sql[i..][1..] == sql[i + 1..];
  }

  method ScanDigits(sql: string, start: nat) returns (i: nat)
    requires start <= |sql|
    ensures start <= i <= |sql| && sql[start..i] == LeadingDigits(sql[start..])
  {
    hide LeadingDigits, IsDigit;
    i := start;
    while i < |sql| && IsDigit(sql[i])
      invariant start <= i <= |sql|
      invariant LeadingDigits(sql[start..]) == sql[start..i] + LeadingDigits(sql[i..])
    {
      LeadingDigitsStep(sql, i);
      assert sql[start..i + 1] == sql[start..i] + [sql[i]];
      i := i + 1;
    }
    LeadingDigitsStep(sql, i);
  }

  /** What a literal read so far and the reading of the rest amount to. */
  function Quoted(value: string, rest: Option<(string, string)>): Option<(string, string)> {
    if rest.None? then None else Some((value + rest.value.0, rest.value.1))
  }

  lemma QuotedTurn(value: string, sql: string, i: nat)
    requires i < |sql|
    ensures Quoted(value, ReadQuoted(sql[i..])) ==
            if sql[i] == '\'' then
              if i + 1 < |sql| && sql[i + 1] == '\'' then Quoted(value + "'", ReadQuoted(sql[i + 2..])) else Some((value, sql[i + 1..]))
            else Quoted(value + [sql[i]], ReadQuoted(sql[i + 1..]))
  {
    var s := sql[i..];
    assert s[1..] == sql[i + 1..];
    if sql[i] == '\'' {
      if i + 1 < |sql| && sql[i + 1] == '\'' {
        assert s[2..] == sql[i + 2..];
        var rest := ReadQuoted(sql[i + 2..]);
        if rest.Some? { assert value + (['\''] + rest.value.0) == value + "'" + rest.value.0; }
      } else {
        assert value + "" == value;
      }
    } else {
      var rest := ReadQuoted(sql[i + 1..]);
      if rest.Some? { assert value + ([sql[i]] + rest.value.0) == value + [sql[i]] + rest.value.0; }
    }
  }

  /** The contents of a literal and the place after it, or None for an unterminated one. */
  method ScanQuoted(sql: string, start: nat) returns (r: Option<(string, nat)>)
    requires start <= |sql|
    ensures r.None? <==> ReadQuoted(sql[start..]).None?
    ensures r.Some? ==> start < r.value.1 <= |sql| && ReadQuoted(sql[start..]) == Some((r.value.0, sql[r.value.1..]))
  {
    hide ReadQuoted;
    var value := "";
    var i := start;
    QuotedNothing(ReadQuoted(sql[start..]));
    while true
      invariant start <= i <= |sql|
      invariant ReadQuoted(sql[start..]) == Quoted(value, ReadQuoted(sql[i..]))
      decreases |sql| - i
    {
      if i >= |sql| {
        QuotedEnd(sql[i..]);
        return None;
      }
      QuotedTurn(value, sql, i);
      if sql[i] == '\'' {
        if i + 1 < |sql| && sql[i + 1] == '\'' {
          value := value + "'";
          i := i + 2;
          continue;
        }
        return Some((value, i + 1));
      }
      value := value + [sql[i]];
      i := i + 1;
    }
  }

  lemma QuotedNothing(rest: Option<(string, string)>)
    ensures Quoted("", rest) == rest
  {
    if rest.Some? { assert "" + rest.value.0 == rest.value.0; }
  }

  lemma QuotedEnd(s: string)
    requires s == ""
    ensures ReadQuoted(s).None?
  {
  }

  /** The body of the loop. */
  method ReadLexeme(sql: string, i: nat) returns (r: Option<Lexeme>)
    requires i < |sql|
    ensures r == NextLexeme(sql[i..])
  {
    hide LeadingDigits, LeadingIdent, ReadQuoted;
    var c := sql[i];
    var s := sql[i..];
    assert s[1..] == sql[i + 1..];
    if IsSpace(c) { return Some(Blank); }
    if IsIdentStart(c) {
      var e := ScanIdent(sql, i);
      return Some(Lexeme(Token(Identifier, sql[i..e]), e - i));
    }
    if IsDigit(c) {
      var e := ScanDigits(sql, i);
      return Some(Lexeme(Token(Number, sql[i..e]), e - i));
    }
    if c == '-' && i + 1 < |sql| && IsDigit(sql[i + 1]) {
      var e := ScanDigits(sql, i + 1);
      assert sql[i..e] == ['-'] + sql[i + 1..e];
      return Some(Lexeme(Token(Number, sql[i..e]), e - i));
    }
    if c == '\'' {
      var quoted := ScanQuoted(sql, i + 1);
      if quoted.None? { return None; }
      LexemeOfQuote(s, quoted.value.0, sql[quoted.value.1..]);
      return Some(Lexeme(Token(Text, quoted.value.0), quoted.value.1 - i));
    }
    if i + 1 < |sql| { assert s[..2] == [c, sql[i + 1]]; }
    if c == '<' && i + 1 < |sql| && sql[i + 1] == '=' { return Some(Lexeme(Token(Symbol, "<="), 2)); }
    if c == '>' && i + 1 < |sql| && sql[i + 1] == '=' { return Some(Lexeme(Token(Symbol, ">="), 2)); }
    if c == '!' && i + 1 < |sql| && sql[i + 1] == '=' { return Some(Lexeme(Token(Symbol, "!="), 2)); }
    if c == '<' && i + 1 < |sql| && sql[i + 1] == '>' { return Some(Lexeme(Token(Symbol, "!="), 2)); }
    if IsSingle(c) { return Some(Lexeme(Token(Symbol, [c]), 1)); }
    return None;
  }

  method Tokenize(sql: string) returns (tokens: Option<seq<Token>>)
    ensures tokens == Lex(sql)
  {
    hide NextLexeme;
    var done: seq<Token> := [];
    var i := 0;
    assert sql[0..] == sql;
    Nothing(Lex(sql));
    while i < |sql|
      invariant 0 <= i <= |sql|
      invariant Lex(sql) == Prepend(done, Lex(sql[i..]))
    {
      LexTurn(done, sql, i);
      var lexeme := ReadLexeme(sql, i);
      if lexeme.None? { return None; }
      if lexeme.value.Blank? {
        i := i + 1;
      } else {
        done := done + [lexeme.value.token];
        i := i + lexeme.value.size;
      }
    }
    assert sql[i..] == "";
    return Some(done + [END]);
  }

  function Prepend(done: seq<Token>, rest: Option<seq<Token>>): Option<seq<Token>> {
    if rest.None? then None else Some(done + rest.value)
  }

  lemma Nothing(rest: Option<seq<Token>>)
    ensures Prepend([], rest) == rest
  {
    if rest.Some? { assert [] + rest.value == rest.value; }
  }

  lemma LexTurn(done: seq<Token>, sql: string, i: nat)
    requires i < |sql|
    ensures var l := NextLexeme(sql[i..]);
            && (l.Some? && l.value.Lexeme? ==> 0 < l.value.size <= |sql| - i)
            && Prepend(done, Lex(sql[i..])) ==
               match l
               case None => None
               case Some(Blank) => Prepend(done, Lex(sql[i + 1..]))
               case Some(Lexeme(token, size)) => if i + size <= |sql| then Prepend(done + [token], Lex(sql[i + size..])) else None
  {
    hide ReadQuoted, LeadingDigits, LeadingIdent, DoubleSymbol, IsSingle;
    assert sql[i..][1..] == sql[i + 1..];
    var l := NextLexeme(sql[i..]);
    if l.Some? && l.value.Lexeme? {
      assert sql[i..][l.value.size..] == sql[i + l.value.size..];
      var rest := Lex(sql[i + l.value.size..]);
      if rest.Some? { assert done + ([l.value.token] + rest.value) == done + [l.value.token] + rest.value; }
    }
  }
}
