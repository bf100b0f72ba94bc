/** The purpose of the normalizer: a catalog definition printed under one schema name and printed
    under another normalize to the same text, its unqualified print. */
module CatalogText {
  import opened Wrappers
  import opened Normalizer
  import opened QualifierScan

  /** The tokens of a printed definition. A word is a whole run of letters, digits, underscores
      and dollar signs: a name, a number or a parameter. The body of a literal is the text between
      its quotes, as printed. A doubled quote inside a quoted identifier lexes as two quoted
      identifiers side by side. */
  datatype Token =
    | Word(text: string)
    | Mark(c: char)
    | Identifier(name: string)
    | Literal(body: string)
    | DollarQuote(tag: string, body: string)
    | Qualifier(quoted: bool)

  function Delimiter(tag: string): string {
    "$" + tag + "$"
  }

  /** The token without any qualifier. */
  function PlainToken(token: Token): string {
    match token
    case Word(text) => text
    case Mark(c) => [c]
    case Identifier(name) => "\"" + name + "\""
    case Literal(body) => "'" + body + "'"
    case DollarQuote(tag, body) => Delimiter(tag) + body + Delimiter(tag)
    case Qualifier(_) => ""
  }

  function PrintToken(token: Token, name: string): string {
    match token
    case Qualifier(quoted) => if quoted then Quoted(name) else Unquoted(name)
    case _ => PlainToken(token)
  }

  function Print(tokens: seq<Token>, name: string): string {
    if tokens == [] then "" else PrintToken(tokens[0], name) + Print(tokens[1..], name)
  }

  function PlainPrint(tokens: seq<Token>): string {
    if tokens == [] then "" else PlainToken(tokens[0]) + PlainPrint(tokens[1..])
  }

  // Well-formed definitions

  /** The closing quote is where the literal ends: a backslash takes the next character with it,
      and a quote stands only beside another. */
  predicate ReadsToEnd(body: string) {
    if body == "" then true
    else if body[0] == '\\' then |body| >= 2 && ReadsToEnd(body[2..])
    else if body[0] == '\'' then |body| >= 2 && body[1] == '\'' && ReadsToEnd(body[2..])
    else ReadsToEnd(body[1..])
  }

  /** The delimiter is first met where the body ends. */
  predicate ClosesAtEnd(body: string, delimiter: string) {
    forall k | 0 <= k < |body| :: !(delimiter <= (body + delimiter)[k..])
  }

  predicate AllContinue(text: string) {
    forall k | 0 <= k < |text| :: Continues(text[k])
  }

  predicate LexicalToken(token: Token) {
    match token
    case Word(text) => text != "" && AllContinue(text)
    case Mark(c) => !Continues(c) && c !in "'\""
    case Identifier(name) => '"' !in name
    case Literal(body) => ReadsToEnd(body)
    case DollarQuote(tag, body) => Tag(tag) && '$' !in tag && ClosesAtEnd(body, Delimiter(tag))
    case Qualifier(_) => true
  }

  /** All that the lexer sees of what follows a word when it looks for a dollar quote in it. */
  function Lookahead(rest: seq<Token>): string {
    if rest != [] && rest[0].DollarQuote? then "$" else ""
  }

  /** Words are whole, and the lexer is outside every dollar quote when it comes to their end. */
  predicate Adjoins(token: Token, rest: seq<Token>) {
    token.Word? ==>
      && (rest != [] ==> !rest[0].Word? && rest[0] != Qualifier(false))
      && Outside(token.text + Lookahead(rest), None, |token.text|)
  }

  predicate Lexical(tokens: seq<Token>) {
    tokens != [] ==>
      LexicalToken(tokens[0]) && Adjoins(tokens[0], tokens[1..]) && Lexical(tokens[1..])
  }

  predicate Dot(tokens: seq<Token>) {
    tokens != [] && tokens[0] == Mark('.')
  }

  /** Whether a token may start a qualifier after this one. */
  predicate EndsAtBoundary(token: Token) {
    !token.Word? && !token.DollarQuote?
  }

  /** A name the schema is called by, before a dot at a token boundary: it reads as a qualifier
      though it is none. */
  predicate StrayFirst(schema: string, boundary: bool, tokens: seq<Token>) {
    && boundary && tokens != [] && Dot(tokens[1..])
    && ((tokens[0].Word? && Called(schema, tokens[0].text))
        || (tokens[0].Identifier? && Called(schema, tokens[0].name)))
  }

  predicate HasStray(schema: string, boundary: bool, tokens: seq<Token>)
    decreases |tokens|
  {
    tokens != [] &&
      (StrayFirst(schema, boundary, tokens)
       || HasStray(schema, EndsAtBoundary(tokens[0]), tokens[1..]))
  }

  /** A qualifier stuck to the end of a word or of a dollar quote is not at a token boundary. */
  predicate HasGlued(boundary: bool, tokens: seq<Token>)
    decreases |tokens|
  {
    tokens != [] &&
      ((tokens[0].Qualifier? && !boundary) || HasGlued(EndsAtBoundary(tokens[0]), tokens[1..]))
  }

  predicate WellFormed(schema: string, tokens: seq<Token>) {
    Lexical(tokens) && !HasStray(schema, true, tokens) && !HasGlued(true, tokens)
  }

  /** What the normalizer makes of a definition: qualifiers go, unless they are glued, and so do
      stray names with their dots. */
  function Residue(boundary: bool, tokens: seq<Token>, schema: string, name: string): string
    decreases |tokens|
  {
    if tokens == [] then
      ""
    else if StrayFirst(schema, boundary, tokens) then
      Residue(true, tokens[2..], schema, name)
    else
      (if tokens[0].Qualifier? && boundary then "" else PrintToken(tokens[0], name))
      + Residue(EndsAtBoundary(tokens[0]), tokens[1..], schema, name)
  }

  // Scanning one piece

  function Out(boundary: bool, text: string, quote: Option<string>, schema: string): string
    requires quote.Some? ==> quote.value != ""
  {
    KeptText(Scan(boundary, text, quote, schema))
  }

  lemma OutKeeps(
    boundary: bool, piece: string, rest: string, quote: Option<string>, quote': Option<string>,
    schema: string)
    requires piece != "" && (quote.Some? ==> quote.value != "") && (quote'.Some? ==> quote'.value != "")
    requires Lex(piece + rest, quote) == Lexed(|piece|, quote')
    requires Skipped(boundary, piece + rest, quote, schema).None?
    ensures Out(boundary, piece + rest, quote, schema) ==
            piece + Out(!Continues(piece[|piece| - 1]), rest, quote', schema)
  {
    hide Lex, Skipped, Continues;
    var text := piece + rest;
    assert text[|piece|..] == rest && text[..|piece|] == piece;
  }

  lemma OutDrops(boundary: bool, q: string, rest: string, schema: string)
    requires q != "" && Skipped(boundary, q + rest, None, schema) == Some(q)
    ensures Out(boundary, q + rest, None, schema) == Out(!Continues(q[|q| - 1]), rest, None, schema)
  {
    hide Skipped, Continues;
    var text := q + rest;
    assert text[|q|..] == rest;
  }

  lemma OutKeepsMark(boundary: bool, c: char, rest: string, schema: string)
    requires PlainName(schema) && !Continues(c) && c !in "'\""
    ensures Out(boundary, [c] + rest, None, schema) == [c] + Out(true, rest, None, schema)
  {
    hide Out, Matches;
    if Matches(schema, [c] + rest) {
      MatchStart(schema, [c] + rest);
    }
    OutKeeps(boundary, [c], rest, None, None, schema);
  }

  /** Quoted characters are kept up to the closing quote. */
  lemma {:induction false} OutKeepsIdentifier(boundary: bool, name: string, rest: string, schema: string)
    requires '"' !in name
    ensures Out(boundary, name + "\"" + rest, Some("\""), schema) ==
            name + "\"" + Out(true, rest, None, schema)
    decreases |name|
  {
    hide Out, DollarQuoteDelimiter;
    if name == "" {
      assert name + "\"" + rest == "\"" + rest;
      OutKeeps(boundary, "\"", rest, Some("\""), None, schema);
    } else {
      var tail := name[1..];
      assert name + "\"" + rest == [name[0]] + (tail + "\"" + rest);
      OutKeeps(boundary, [name[0]], tail + "\"" + rest, Some("\""), Some("\""), schema);
      OutKeepsIdentifier(!Continues(name[0]), tail, rest, schema);
      assert name + "\"" + Out(true, rest, None, schema)
          == [name[0]] + (tail + "\"" + Out(true, rest, None, schema));
    }
  }

  /** After its last character, a literal is followed by the rest as if by something new, even
      by another literal, whose opening quote the scan takes for a doubled one. */
  lemma OutCloses(boundary: bool, rest: string, schema: string)
    ensures Out(boundary, "'" + rest, Some("'"), schema) == "'" + Out(true, rest, None, schema)
  {
    hide Out, DollarQuoteDelimiter;
    if "'" <= rest {
      var after := rest[1..];
      assert rest == "'" + after && "'" + rest == "''" + after;
      OutKeeps(boundary, "''", after, Some("'"), Some("'"), schema);
      OutKeeps(true, "'", after, None, Some("'"), schema);
      assert "''" + Out(true, after, Some("'"), schema) == "'" + ("'" + Out(true, after, Some("'"), schema));
    } else {
      OutKeeps(boundary, "'", rest, Some("'"), None, schema);
    }
  }

  lemma {:induction false} OutKeepsLiteral(boundary: bool, body: string, rest: string, schema: string)
    requires ReadsToEnd(body)
    ensures Out(boundary, body + "'" + rest, Some("'"), schema) ==
            body + "'" + Out(true, rest, None, schema)
    decreases |body|
  {
    hide Out, DollarQuoteDelimiter;
    if body == "" {
      assert body + "'" + rest == "'" + rest;
      OutCloses(boundary, rest, schema);
    } else {
      var n := if body[0] in "\\'" then 2 else 1;
      var piece, tail := body[..n], body[n..];
      assert body + "'" + rest == piece + (tail + "'" + rest);
      OutKeeps(boundary, piece, tail + "'" + rest, Some("'"), Some("'"), schema);
      OutKeepsLiteral(!Continues(piece[n - 1]), tail, rest, schema);
      assert body + "'" + Out(true, rest, None, schema)
          == piece + (tail + "'" + Out(true, rest, None, schema));
    }
  }

  lemma StaysOpen(body: string, delimiter: string, rest: string)
    requires body != "" && ClosesAtEnd(body, delimiter)
    ensures !(delimiter <= body + delimiter + rest)
    ensures ClosesAtEnd(body[1..], delimiter)
  {
    var text := body + delimiter;
    assert text[0..] == text;
    assert (text + rest)[..|delimiter|] == text[..|delimiter|];
    forall k | 0 <= k < |body[1..]| ensures !(delimiter <= (body[1..] + delimiter)[k..]) {
      assert (body[1..] + delimiter)[k..] == text[k + 1..];
    }
  }

  lemma {:induction false} OutKeepsBody(boundary: bool, body: string, delimiter: string, rest: string, schema: string)
    requires 2 <= |delimiter| && delimiter[|delimiter| - 1] == '$' && ClosesAtEnd(body, delimiter)
    ensures Out(boundary, body + delimiter + rest, Some(delimiter), schema) ==
            body + delimiter + Out(false, rest, None, schema)
    decreases |body|
  {
    hide Out, DollarQuoteDelimiter, ClosesAtEnd;
    if body == "" {
      assert body + delimiter + rest == delimiter + rest;
      OutKeeps(boundary, delimiter, rest, Some(delimiter), None, schema);
    } else {
      var tail := body[1..];
      StaysOpen(body, delimiter, rest);
      assert body + delimiter + rest == [body[0]] + (tail + delimiter + rest);
      OutKeeps(boundary, [body[0]], tail + delimiter + rest, Some(delimiter), Some(delimiter), schema);
      OutKeepsBody(!Continues(body[0]), tail, delimiter, rest, schema);
      assert body + delimiter + Out(false, rest, None, schema)
          == [body[0]] + (tail + delimiter + Out(false, rest, None, schema));
    }
  }

  // Scanning a word

  /** A dollar quote delimiter, or none. */
  predicate InWord(quote: Option<string>) {
    quote.Some? ==>
      && 2 <= |quote.value| && quote.value[0] == '$' && quote.value[|quote.value| - 1] == '$'
      && forall k | 1 <= k < |quote.value| - 1 :: NameChar(quote.value[k])
  }

  /** What follows a word, as far as the lexer can see of it. */
  predicate ComesAfter(ahead: string, rest: string) {
    if rest != "" && rest[0] == '$' then ahead == "$"
    else ahead == "" && (rest != "" ==> !NameChar(rest[0]))
  }

  lemma {:induction false} FindSplits(before: string, after: string, c: char)
    ensures Find(before + after, c) ==
            if Find(before, c).Some? then Find(before, c)
            else if Find(after, c).Some? then Some(|before| + Find(after, c).value)
            else None
  {
    if before == "" {
      assert before + after == after;
    } else {
      assert (before + after)[1..] == before[1..] + after;
      FindSplits(before[1..], after, c);
    }
  }

  lemma DelimiterInWord(value: string)
    requires DollarQuoteDelimiter(value).Some?
    ensures InWord(DollarQuoteDelimiter(value))
  {
    var k := Find(value[1..], '$').value;
    var tag, d := value[1..k + 1], value[..k + 2];
    assert Tag(tag);
    forall j | 1 <= j < |d| - 1 ensures NameChar(d[j]) {
      assert d[j] == tag[j - 1];
    }
  }

  lemma DelimiterAt(value: string, k: nat)
    requires value != "" && value[0] == '$' && Find(value[1..], '$') == Some(k)
    ensures DollarQuoteDelimiter(value) == if Tag(value[1..k + 1]) then Some(value[..k + 2]) else None
  {
  }

  lemma SharedDelimiter(value: string, value': string, k: nat)
    requires value != "" && value[0] == '$' && Find(value[1..], '$') == Some(k)
    requires value' != "" && value'[0] == '$' && Find(value'[1..], '$') == Some(k)
    requires value[..k + 2] == value'[..k + 2]
    ensures DollarQuoteDelimiter(value) == DollarQuoteDelimiter(value')
  {
    hide DollarQuoteDelimiter, Tag;
    DelimiterAt(value, k);
    DelimiterAt(value', k);
    assert value[1..k + 1] == value[..k + 2][1..k + 1] == value'[1..k + 1];
  }

  lemma FindsFirst(text: string)
    requires text != "" && text[0] == '$'
    ensures Find(text, '$') == Some(0)
  {
  }

  lemma NoDelimiter(value: string)
    requires value != "" && Find(value[1..], '$').None?
    ensures DollarQuoteDelimiter(value).None?
  {
  }

  /** A tag does not run on over something that is no name character. */
  lemma NothingOpens(word: string, rest: string)
    requires word != "" && word[0] == '$' && Find(word[1..], '$').None?
    requires rest != "" ==> !NameChar(rest[0]) && rest[0] != '$'
    ensures DollarQuoteDelimiter(word + rest).None?
  {
    hide DollarQuoteDelimiter, Find;
    var value, tail := word + rest, word[1..];
    assert value[1..] == tail + rest;
    FindSplits(tail, rest, '$');
    if Find(value[1..], '$').Some? {
      var k := Find(value[1..], '$').value;
      DelimiterAt(value, k);
      var tag := value[1..k + 1];
      assert Find(rest, '$').value > 0;
      assert tag[|tail|] == rest[0];
    } else {
      NoDelimiter(value);
    }
  }

  /** Looking ahead, the lexer finds the same dollar quote in a word whatever follows it. */
  lemma DelimiterAlike(word: string, ahead: string, rest: string)
    requires word != "" && ComesAfter(ahead, rest)
    ensures DollarQuoteDelimiter(word + rest) == DollarQuoteDelimiter(word + ahead)
  {
    if word[0] == '$' {
      hide DollarQuoteDelimiter, Tag, Find;
      var tail := word[1..];
      assert (word + rest)[1..] == tail + rest && (word + ahead)[1..] == tail + ahead;
      FindSplits(tail, rest, '$');
      FindSplits(tail, ahead, '$');
      if Find(tail, '$').Some? {
        var k := Find(tail, '$').value;
        assert (word + rest)[..k + 2] == (word + ahead)[..k + 2];
        SharedDelimiter(word + rest, word + ahead, k);
      } else if ahead == "$" {
        FindsFirst(rest);
        FindsFirst(ahead);
        assert (word + rest)[..|tail| + 2] == (word + ahead)[..|tail| + 2];
        SharedDelimiter(word + rest, word + ahead, |tail|);
      } else {
        NothingOpens(word, rest);
        NothingOpens(word, ahead);
      }
    }
  }

  lemma ClosesAlike(word: string, ahead: string, rest: string, d: string)
    requires word != "" && ComesAfter(ahead, rest) && InWord(Some(d))
    ensures d <= word + rest <==> d <= word + ahead
  {
    if |d| <= |word| {
      assert (word + rest)[..|d|] == (word + ahead)[..|d|];
    } else {
      var n := |word|;
      if d <= word + rest {
        assert d[n] == (word + rest)[n] == rest[0];
        assert n == |d| - 1;
        assert d == (word + rest)[..n + 1] == (word + ahead)[..n + 1];
      }
      if d <= word + ahead {
        assert d[n] == (word + ahead)[n];
        assert d == (word + ahead)[..n + 1] == (word + rest)[..n + 1];
      }
    }
  }

  /** The lexer takes the same token from the word whatever follows, if the word holds the token. */
  lemma LexesAlike(word: string, ahead: string, rest: string, quote: Option<string>)
    requires word != "" && AllContinue(word) && ComesAfter(ahead, rest) && InWord(quote)
    requires Lex(word + ahead, quote).length <= |word|
    ensures Lex(word + rest, quote) == Lex(word + ahead, quote)
    ensures InWord(Lex(word + ahead, quote).quote)
  {
    hide DollarQuoteDelimiter;
    assert word[0] == (word + rest)[0] == (word + ahead)[0] && Continues(word[0]);
    match quote
    case None =>
      DelimiterAlike(word, ahead, rest);
      if DollarQuoteDelimiter(word + ahead).Some? {
        DelimiterInWord(word + ahead);
      }
    case Some(d) =>
      if d <= word + rest || d <= word + ahead {
        ClosesAlike(word, ahead, rest, d);
      }
  }

  lemma OutsideSteps(text: string, quote: Option<string>, offset: nat)
    requires text != "" && 0 < offset && (quote.Some? ==> quote.value != "") && Outside(text, quote, offset)
    ensures var token := Lex(text, quote);
            && token.length <= offset
            && Outside(text[token.length..], token.quote, offset - token.length)
  {
  }

  lemma InWordIsText(quote: Option<string>)
    requires InWord(quote)
    ensures quote.Some? ==> quote.value != ""
  {
  }

  /** The scan takes one token from a word. */
  lemma WordSteps(
    boundary: bool, word: string, ahead: string, rest: string, quote: Option<string>, schema: string)
    returns (piece: string, tail: string, quote': Option<string>)
    requires word != "" && AllContinue(word) && ComesAfter(ahead, rest) && InWord(quote)
    requires Outside(word + ahead, quote, |word|)
    requires Skipped(boundary, word + rest, quote, schema).None?
    ensures word == piece + tail && |tail| < |word| && AllContinue(tail) && InWord(quote')
    ensures Outside(tail + ahead, quote', |tail|)
    ensures Out(boundary, word + rest, quote, schema) == piece + Out(false, tail + rest, quote', schema)
  {
    hide Out, Outside, Skipped, ComesAfter, Lex, InWord, Continues, DollarQuoteDelimiter;
    InWordIsText(quote);
    OutsideSteps(word + ahead, quote, |word|);
    var token := Lex(word + ahead, quote);
    var n := token.length;
    LexesAlike(word, ahead, rest, quote);
    piece, tail, quote' := word[..n], word[n..], token.quote;
    assert word + rest == piece + (tail + rest);
    assert (word + ahead)[n..] == tail + ahead;
    OutKeeps(boundary, piece, tail + rest, quote, quote', schema);
    assert Continues(word[n - 1]);
  }

  lemma NothingSkipped(boundary: bool, text: string, quote: Option<string>, schema: string)
    requires boundary ==> !Matches(schema, text)
    ensures Skipped(boundary, text, quote, schema).None?
  {
  }

  lemma AtEnd(text: string, quote: Option<string>)
    requires quote.Some? ==> quote.value != ""
    ensures Outside(text, quote, 0) <==> quote.None?
  {
  }

  /** A word at whose end the lexer is outside again is kept, dollar quotes in it and all. */
  lemma {:induction false} OutKeepsWord(
    boundary: bool, word: string, ahead: string, rest: string, quote: Option<string>, schema: string)
    requires AllContinue(word) && ComesAfter(ahead, rest) && InWord(quote)
    requires Outside(word + ahead, quote, |word|)
    requires word != "" ==> Skipped(boundary, word + rest, quote, schema).None?
    ensures word == "" ==> quote.None?
    ensures Out(boundary, word + rest, quote, schema) ==
            word + Out(word == "" && boundary, rest, None, schema)
    decreases |word|
  {
    hide Out, Outside, Skipped, ComesAfter, InWord, AllContinue;
    InWordIsText(quote);
    if word == "" {
      AtEnd(ahead, quote);
      assert word + ahead == ahead && word + rest == rest;
    } else {
      var piece, tail, quote' := WordSteps(boundary, word, ahead, rest, quote, schema);
      NothingSkipped(false, tail + rest, quote', schema);
      OutKeepsWord(false, tail, ahead, rest, quote', schema);
      assert word + Out(false, rest, None, schema) == piece + (tail + Out(false, rest, None, schema));
    }
  }

  // Where qualifiers can match

  /** Two names read from the start of one text, each up to something else, are the same. */
  lemma SameName(a: string, b: string, text: string)
    requires PlainName(a) && a < text && !NameChar(text[|a|])
    requires PlainName(b) && b < text && !NameChar(text[|b|])
    ensures a == b
  {
    assert forall k | 0 <= k < |a| :: text[k] == a[k] && NameChar(text[k]);
    assert forall k | 0 <= k < |b| :: text[k] == b[k] && NameChar(text[k]);
    assert a == text[..|a|] && b == text[..|b|];
  }

  /** A whole word that starts like a name and a dot is that name. */
  lemma WordIsName(word: string, rest: string, name: string)
    requires PlainName(name) && word != "" && AllContinue(word) && Unquoted(name) <= word + rest
    requires rest != "" ==> !NameChar(rest[0])
    ensures word == name && rest != "" && rest[0] == '.'
  {
    var text := word + rest;
    assert text[|name|] == '.' && !Continues(text[|name|]);
    assert forall k | 0 <= k < |name| :: text[k] == name[k] && NameChar(text[k]);
    assert forall k | 0 <= k < |word| :: text[k] == word[k] && Continues(text[k]);
    assert |word| < |text| ==> text[|word|] == rest[0];
    assert |name| == |word|;
    assert name == text[..|name|] && word == text[..|word|];
  }

  /** A whole word is matched only as the name before a dot. */
  lemma WordMatch(schema: string, word: string, rest: string)
    requires PlainName(schema) && word != "" && AllContinue(word) && Matches(schema, word + rest)
    requires rest != "" ==> !NameChar(rest[0])
    ensures Called(schema, word) && rest != "" && rest[0] == '.'
  {
    var text := word + rest;
    var q := FirstMatch(Qualifiers(schema), text).value;
    var name := QualifierForm(schema, q);
    assert q[0] == text[0] == word[0] && Continues(word[0]);
    assert q == Unquoted(name);
    WordIsName(word, rest, name);
  }

  /** A quoted identifier is matched only as the name before a dot. */
  lemma IdentifierMatch(schema: string, name: string, rest: string)
    requires PlainName(schema) && '"' !in name
    requires Matches(schema, "\"" + name + "\"" + rest)
    ensures Called(schema, name) && rest != "" && rest[0] == '.'
  {
    var text := "\"" + name + "\"" + rest;
    var q := FirstMatch(Qualifiers(schema), text).value;
    var called := QualifierForm(schema, q);
    NameIsPlain(called);
    assert q[0] == text[0] == '"';
    assert q != Unquoted(called) by {
      assert Unquoted(called)[0] == called[0];
    }
    assert text[|called| + 1] == '"' && text[|called| + 2] == '.';
    assert forall k | 0 <= k < |called| :: text[k + 1] == called[k] != '"';
    assert forall k | 0 <= k < |name| :: text[k + 1] == name[k] != '"';
    assert text[|name| + 1] == '"';
    assert |name| == |called|;
    assert name == text[1..|name| + 1] && called == text[1..|called| + 1];
  }

  /** A print starts as its first token does. */
  lemma FirstChar(tokens: seq<Token>, name: string)
    requires PlainName(name) && tokens != [] && Lexical(tokens)
    ensures Print(tokens, name) != ""
    ensures var c := Print(tokens, name)[0];
            && (c == '.' <==> tokens[0] == Mark('.'))
            && (NameChar(c) ==> tokens[0].Word? || tokens[0] == Qualifier(false))
            && (c == '$' ==> tokens[0].Word? || tokens[0].DollarQuote?)
            && (tokens[0].DollarQuote? ==> c == '$')
  {
    hide Tag, ClosesAtEnd, ReadsToEnd, Outside;
  }

  lemma FollowsPrint(rest: seq<Token>, name: string)
    requires PlainName(name) && Lexical(rest)
    requires rest != [] ==> !rest[0].Word? && rest[0] != Qualifier(false)
    ensures ComesAfter(Lookahead(rest), Print(rest, name))
  {
    hide Lexical, NameChar;
    if rest != [] {
      FirstChar(rest, name);
    }
  }

  lemma MatchedFirst(schema: string, q: string, text: string)
    requires q in Qualifiers(schema) && q <= text
    ensures FirstMatch(Qualifiers(schema), text) == Some(q)
  {
    hide Qualifiers;
    var found := FirstMatch(Qualifiers(schema), text);
    if found.Some? {
      OneQualifierMatches(schema, text, q, found.value);
    }
  }

  // Scanning one token

  lemma OutOfWord(boundary: bool, text: string, ahead: string, printed: string, schema: string)
    requires PlainName(schema) && text != "" && AllContinue(text)
    requires ComesAfter(ahead, printed) && Outside(text + ahead, None, |text|)
    requires boundary && Called(schema, text) ==> printed == "" || printed[0] != '.'
    ensures Out(boundary, text + printed, None, schema) == text + Out(false, printed, None, schema)
  {
    hide Out, Matches, Outside, DollarQuoteDelimiter;
    if boundary && Matches(schema, text + printed) {
      WordMatch(schema, text, printed);
    }
    NothingSkipped(boundary, text + printed, None, schema);
    OutKeepsWord(boundary, text, ahead, printed, None, schema);
  }

  lemma OutOpens(boundary: bool, mark: string, rest: string, schema: string)
    requires mark == "'" || (mark == "\"" && (boundary ==> !Matches(schema, mark + rest)))
    ensures Out(boundary, mark + rest, None, schema) == mark + Out(true, rest, Some(mark), schema)
  {
    OutKeeps(boundary, mark, rest, None, Some(mark), schema);
  }

  lemma OutOfIdentifier(boundary: bool, quoted: string, printed: string, schema: string)
    requires PlainName(schema) && '"' !in quoted
    requires boundary && Called(schema, quoted) ==> printed == "" || printed[0] != '.'
    ensures Out(boundary, "\"" + quoted + "\"" + printed, None, schema) ==
            "\"" + quoted + "\"" + Out(true, printed, None, schema)
  {
    hide Out, Matches;
    var text := "\"" + quoted + "\"" + printed;
    if boundary && Matches(schema, text) {
      IdentifierMatch(schema, quoted, printed);
    }
    assert text == "\"" + (quoted + "\"" + printed);
    OutOpens(boundary, "\"", quoted + "\"" + printed, schema);
    OutKeepsIdentifier(true, quoted, printed, schema);
    assert "\"" + quoted + "\"" + Out(true, printed, None, schema)
        == "\"" + (quoted + "\"" + Out(true, printed, None, schema));
  }

  lemma OutOfLiteral(boundary: bool, body: string, rest: string, schema: string)
    requires ReadsToEnd(body)
    ensures Out(boundary, "'" + body + "'" + rest, None, schema) ==
            "'" + body + "'" + Out(true, rest, None, schema)
  {
    hide Out, ReadsToEnd;
    assert "'" + body + "'" + rest == "'" + (body + "'" + rest);
    OutOpens(boundary, "'", body + "'" + rest, schema);
    OutKeepsLiteral(true, body, rest, schema);
    assert "'" + body + "'" + Out(true, rest, None, schema)
        == "'" + (body + "'" + Out(true, rest, None, schema));
  }

  lemma DelimiterOpens(tag: string, rest: string)
    requires Tag(tag) && '$' !in tag
    ensures DollarQuoteDelimiter(Delimiter(tag) + rest) == Some(Delimiter(tag))
  {
    hide Tag;
    var d, after := Delimiter(tag), "$" + rest;
    var value := d + rest;
    assert value[1..] == tag + after;
    FindSplits(tag, after, '$');
    FindsFirst(after);
    assert value[1..|tag| + 1] == tag && value[..|tag| + 2] == d;
    DelimiterAt(value, |tag|);
  }

  lemma OutOfDollarQuote(boundary: bool, tag: string, body: string, rest: string, schema: string)
    requires LexicalToken(DollarQuote(tag, body))
    ensures Out(boundary, Delimiter(tag) + body + Delimiter(tag) + rest, None, schema) ==
            Delimiter(tag) + body + Delimiter(tag) + Out(false, rest, None, schema)
  {
    hide Out, ClosesAtEnd, Tag;
    var d := Delimiter(tag);
    var text := d + body + d + rest;
    assert text == d + (body + d + rest);
    DelimiterOpens(tag, body + d + rest);
    OutKeeps(boundary, d, body + d + rest, None, Some(d), schema);
    OutKeepsBody(false, body, d, rest, schema);
    assert d + body + d + Out(false, rest, None, schema)
        == d + (body + d + Out(false, rest, None, schema));
  }

  lemma OutOfQualifier(quoted: bool, rest: string, schema: string, name: string)
    requires PlainName(schema) && Called(schema, name) && PlainName(name)
    ensures Out(true, PrintToken(Qualifier(quoted), name) + rest, None, schema) ==
            Out(true, rest, None, schema)
  {
    hide Out;
    var q := PrintToken(Qualifier(quoted), name);
    var text := q + rest;
    NameIsPlain(name);
    assert q in Qualifiers(schema) by {
      var all := Qualifiers(schema);
      assert all[0] == Unquoted(schema) && all[1] == Quoted(schema);
      assert "pg_temp_" <= schema ==> all[2] == Unquoted("pg_temp") && all[3] == Quoted("pg_temp");
    }
    assert q <= text && text[0] == q[0] && text[0] !in "'$";
    MatchedFirst(schema, q, text);
    OutDrops(true, q, rest, schema);
  }

  lemma OutKeepsName(name: string, rest: string, schema: string)
    requires PlainName(name) && rest != "" && rest[0] == '.'
    ensures Out(false, name + rest, None, schema) == name + Out(false, rest, None, schema)
  {
    hide Out;
    NameIsPlain(name);
    assert forall k | 0 <= k < |name| :: NameChar(name[k]);
    LexesThrough(name, name, None, |name|);
    assert name + "" == name && name[|name|..] == "";
    OutKeepsWord(false, name, "", rest, None, schema);
  }

  /** Away from a token boundary a qualifier is kept. */
  lemma OutOfGlued(quoted: bool, rest: string, schema: string, name: string)
    requires PlainName(schema) && PlainName(name)
    ensures Out(false, PrintToken(Qualifier(quoted), name) + rest, None, schema) ==
            PrintToken(Qualifier(quoted), name) + Out(true, rest, None, schema)
  {
    hide Out, Skipped, DollarQuoteDelimiter;
    NameIsPlain(name);
    var after := ['.'] + rest;
    OutKeepsMark(quoted, '.', rest, schema);
    if quoted {
      assert Quoted(name) + rest == "\"" + name + "\"" + after;
      OutOfIdentifier(false, name, after, schema);
      assert Quoted(name) + Out(true, rest, None, schema)
          == "\"" + name + "\"" + (['.'] + Out(true, rest, None, schema));
    } else {
      assert Unquoted(name) + rest == name + after;
      OutKeepsName(name, after, schema);
      assert Unquoted(name) + Out(true, rest, None, schema)
          == name + (['.'] + Out(true, rest, None, schema));
    }
  }

  // Normalizing a print

  /** What a token may stand before: nothing that changes how the token itself reads. */
  predicate StandsBefore(
    schema: string, boundary: bool, token: Token, ahead: string, printed: string)
  {
    && (token.Word? ==> ComesAfter(ahead, printed) && Outside(token.text + ahead, None, |token.text|))
    && (boundary && printed != "" && printed[0] == '.' ==>
          && (token.Word? ==> !Called(schema, token.text))
          && (token.Identifier? ==> !Called(schema, token.name)))
  }

  lemma OutOfPiece(
    boundary: bool, token: Token, ahead: string, printed: string, schema: string, name: string)
    requires PlainName(schema) && Called(schema, name) && PlainName(name)
    requires LexicalToken(token) && StandsBefore(schema, boundary, token, ahead, printed)
    ensures Out(boundary, PrintToken(token, name) + printed, None, schema) ==
            (if token.Qualifier? && boundary then "" else PrintToken(token, name))
            + Out(EndsAtBoundary(token), printed, None, schema)
  {
    hide Out, ReadsToEnd, Outside, Called, ComesAfter;
    match token
    case Word(text) => OutOfWord(boundary, text, ahead, printed, schema);
    case Mark(c) => OutKeepsMark(boundary, c, printed, schema);
    case Identifier(quoted) => OutOfIdentifier(boundary, quoted, printed, schema);
    case Literal(body) => OutOfLiteral(boundary, body, printed, schema);
    case DollarQuote(tag, body) => OutOfDollarQuote(boundary, tag, body, printed, schema);
    case Qualifier(quoted) =>
      if boundary {
        OutOfQualifier(quoted, printed, schema, name);
        assert "" + Out(true, printed, None, schema) == Out(true, printed, None, schema);
      } else {
        OutOfGlued(quoted, printed, schema, name);
      }
  }

  lemma StartsWithDot(rest: seq<Token>, name: string)
    requires PlainName(name) && Lexical(rest)
    ensures Dot(rest) <==> Print(rest, name) != "" && Print(rest, name)[0] == '.'
  {
    hide Lexical;
    if rest != [] {
      FirstChar(rest, name);
    }
  }

  lemma TokenStandsBefore(boundary: bool, token: Token, rest: seq<Token>, schema: string, name: string)
    requires PlainName(name) && Adjoins(token, rest) && Lexical(rest)
    requires !StrayFirst(schema, boundary, [token] + rest)
    ensures StandsBefore(schema, boundary, token, Lookahead(rest), Print(rest, name))
  {
    hide Lexical, Print, Outside, Called, ComesAfter;
    assert ([token] + rest)[1..] == rest;
    StartsWithDot(rest, name);
    if token.Word? {
      FollowsPrint(rest, name);
    }
  }

  lemma PrintTwo(tokens: seq<Token>, name: string)
    requires |tokens| >= 2
    ensures Print(tokens, name) ==
            (PrintToken(tokens[0], name) + PrintToken(tokens[1], name)) + Print(tokens[2..], name)
  {
    hide PrintToken;
    assert tokens[1..][1..] == tokens[2..];
    assert Print(tokens[1..], name) == PrintToken(tokens[1], name) + Print(tokens[2..], name);
  }

  lemma PrintOfStray(tokens: seq<Token>, schema: string, name: string) returns (called: string)
    requires StrayFirst(schema, true, tokens)
    ensures |tokens| >= 2 && Called(schema, called)
    ensures Print(tokens, name) ==
            PrintToken(Qualifier(tokens[0].Identifier?), called) + Print(tokens[2..], name)
  {
    hide Lexical;
    called := if tokens[0].Word? then tokens[0].text else tokens[0].name;
    var printed := Print(tokens[2..], name);
    PrintTwo(tokens, name);
    assert PlainToken(tokens[0]) + "." == PrintToken(Qualifier(tokens[0].Identifier?), called);
  }

  lemma CalledIsPlain(schema: string, name: string)
    requires PlainName(schema) && Called(schema, name)
    ensures PlainName(name)
  {
  }

  /** A stray name is dropped with its dot. */
  lemma OutOfStray(tokens: seq<Token>, schema: string, name: string)
    requires PlainName(schema) && StrayFirst(schema, true, tokens)
    ensures |tokens| >= 2
    ensures Out(true, Print(tokens, name), None, schema) ==
            Out(true, Print(tokens[2..], name), None, schema)
  {
    var called := PrintOfStray(tokens, schema, name);
    hide Out, StrayFirst, Print, PrintToken;
    CalledIsPlain(schema, called);
    OutOfQualifier(tokens[0].Identifier?, Print(tokens[2..], name), schema, called);
  }

  lemma {:induction false} OutOfPrint(boundary: bool, tokens: seq<Token>, schema: string, name: string)
    requires PlainName(schema) && Called(schema, name) && Lexical(tokens)
    ensures Out(boundary, Print(tokens, name), None, schema) == Residue(boundary, tokens, schema, name)
    decreases |tokens|
  {
    hide PrintToken, PlainToken, LexicalToken, Adjoins, StandsBefore;
    if tokens == [] {
    } else if StrayFirst(schema, boundary, tokens) {
      OutOfStray(tokens, schema, name);
      assert tokens[1..][1..] == tokens[2..];
      OutOfPrint(true, tokens[2..], schema, name);
    } else {
      assert [tokens[0]] + tokens[1..] == tokens;
      TokenStandsBefore(boundary, tokens[0], tokens[1..], schema, name);
      OutOfPiece(boundary, tokens[0], Lookahead(tokens[1..]), Print(tokens[1..], name), schema, name);
      OutOfPrint(EndsAtBoundary(tokens[0]), tokens[1..], schema, name);
    }
  }

  /** What the normalizer makes of any definition, printed under any name of its schema. */
  lemma NormalizingLeavesResidue(tokens: seq<Token>, schema: string, name: string)
    requires PlainName(schema) && Called(schema, name) && Lexical(tokens)
    ensures Normalized(Print(tokens, name), schema) == Residue(true, tokens, schema, name)
  {
    OutOfPrint(true, tokens, schema, name);
  }

  lemma {:induction false} PlainResidue(boundary: bool, tokens: seq<Token>, schema: string, name: string)
    requires !HasStray(schema, boundary, tokens) && !HasGlued(boundary, tokens)
    ensures Residue(boundary, tokens, schema, name) == PlainPrint(tokens)
    decreases |tokens|
  {
    if tokens == [] {
    } else {
      PlainResidue(EndsAtBoundary(tokens[0]), tokens[1..], schema, name);
    }
  }

  /** Whichever way a definition calls its schema, normalizing its print gives the print without
      qualifiers: literals, dollar quotes and quoted identifiers come through as they are. */
  lemma NormalizingUnqualifies(tokens: seq<Token>, schema: string, name: string)
    requires PlainName(schema) && Called(schema, name) && WellFormed(schema, tokens)
    ensures Normalized(Print(tokens, name), schema) == PlainPrint(tokens)
  {
    hide Lexical, HasStray, HasGlued;
    NormalizingLeavesResidue(tokens, schema, name);
    PlainResidue(true, tokens, schema, name);
  }

  /** The same definition in two schemas, or reached through the temporary alias, normalizes to
      the same text. */
  lemma CrossSchemaRoundTrip(tokens: seq<Token>, schema: string, temporary: string)
    requires PlainName(schema) && PlainName(temporary) && "pg_temp_" <= temporary
    requires WellFormed(schema, tokens) && WellFormed(temporary, tokens)
    ensures Normalized(Print(tokens, schema), schema) == Normalized(Print(tokens, temporary), temporary)
    ensures Normalized(Print(tokens, "pg_temp"), temporary) == Normalized(Print(tokens, schema), schema)
  {
    hide WellFormed;
    NormalizingUnqualifies(tokens, schema, schema);
    NormalizingUnqualifies(tokens, temporary, temporary);
    NormalizingUnqualifies(tokens, temporary, "pg_temp");
  }
}
