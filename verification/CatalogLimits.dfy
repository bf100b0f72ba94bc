/** Where the normalizer stops serving its purpose. For each shape of definition that the round
    trip excludes: exactly when it fails, and an input on which it does. */
module CatalogLimits {
  import opened Wrappers
  import opened Normalizer
  import opened QualifierScan
  import opened CatalogText
  import opened CatalogAgreement

  // Texts that end in a qualifier that was kept

  predicate EndsIn(text: string, tail: string) {
    |tail| <= |text| && text[|text| - |tail|..] == tail
  }

  lemma EndsInStill(piece: string, text: string, tail: string)
    requires EndsIn(text, tail)
    ensures EndsIn(piece + text, tail)
  {
    var whole := piece + text;
    assert whole[|whole| - |tail|..] == text[|text| - |tail|..];
  }

  lemma ReadsEnding(text: string, mark: char, name: string)
    requires PlainName(name) && EndsIn(text, [mark] + Unquoted(name))
    ensures var m := |text| - |name| - 1;
            && m >= 1 && text[m - 1] == mark && text[m..|text| - 1] == name
            && forall k | m <= k < |text| - 1 :: NameChar(text[k])
  {
    var m, tail := |text| - |name| - 1, [mark] + Unquoted(name);
    assert text[m - 1] == tail[0];
    assert text[m - 1..] == tail;
    assert text[m..|text| - 1] == text[m - 1..][1..|name| + 1] == tail[1..|name| + 1];
    assert tail[1..|name| + 1] == name;
    forall k | m <= k < |text| - 1 ensures NameChar(text[k]) {
      assert text[k] == text[m..|text| - 1][k - m] == name[k - m];
    }
  }

  /** The name in the last qualifier can be read off the text. */
  lemma EndingsDiffer(text: string, mark: char, a: string, b: string)
    requires PlainName(a) && PlainName(b) && !NameChar(mark)
    requires EndsIn(text, [mark] + Unquoted(a)) && EndsIn(text, [mark] + Unquoted(b))
    ensures a == b
  {
    hide EndsIn, NameChar, PlainName, Unquoted;
    ReadsEnding(text, mark, a);
    ReadsEnding(text, mark, b);
    assert |a| == |b|;
  }

  /** A definition that ends in a qualifier which is kept in both schemas. */
  lemma KeptInBoth(tokens: seq<Token>, mark: char, schema: string, other: string)
    requires PlainName(schema) && PlainName(other) && schema != other && !NameChar(mark) && mark != '.'
    requires EndsIn(Normalized(Print(tokens, schema), schema), [mark] + Unquoted(schema))
    requires EndsIn(Normalized(Print(tokens, other), other), [mark] + Unquoted(other))
    requires EndsIn(PlainPrint(tokens), [mark])
    ensures !Unqualifies(tokens, schema) && !SameInBoth(tokens, schema, other)
  {
    hide Normalized, Print, PlainPrint;
    var text := Normalized(Print(tokens, schema), schema);
    assert text[|text| - 1] == ([mark] + Unquoted(schema))[|schema| + 1] == '.';
    assert PlainPrint(tokens)[|PlainPrint(tokens)| - 1] == mark;
    if SameInBoth(tokens, schema, other) {
      EndingsDiffer(text, mark, schema, other);
    }
  }

  /** Inside a quote that does not close, everything is kept. */
  lemma {:induction false} OutKeepsQuoted(boundary: bool, text: string, d: string, schema: string)
    requires d != "" && d[0] !in text
    ensures Out(boundary, text, Some(d), schema) == text
    decreases |text|
  {
    if text != "" {
      hide Out, DollarQuoteDelimiter;
      assert text[0] in text;
      var token := Lex(text, Some(d));
      assert token.quote == Some(d);
      var piece, rest := text[..token.length], text[token.length..];
      assert text == piece + rest;
      OutKeeps(boundary, piece, rest, Some(d), Some(d), schema);
      OutKeepsQuoted(!Continues(piece[|piece| - 1]), rest, d, schema);
    } else {
      assert Out(boundary, "", Some(d), schema) == "";
    }
  }

  // A shape behind a well-formed definition

  /** Whether a token may start a qualifier behind the definition. */
  predicate BoundaryBehind(boundary: bool, before: seq<Token>) {
    if before == [] then boundary else EndsAtBoundary(before[|before| - 1])
  }

  /** The text behind the definition reads for itself: it does not go on with a word, and it is no
      dot that a name would be a qualifier before. */
  predicate Behind(before: seq<Token>, text: string) {
    && text != "" && text[0] != '.'
    && (before != [] && before[|before| - 1].Word? ==> !Continues(text[0]))
  }

  lemma {:induction false} PrintAppends(before: seq<Token>, after: seq<Token>, name: string)
    ensures Print(before + after, name) == Print(before, name) + Print(after, name)
    ensures PlainPrint(before + after) == PlainPrint(before) + PlainPrint(after)
  {
    hide PrintToken, PlainToken;
    if before == [] {
      assert before + after == after;
    } else {
      assert (before + after)[1..] == before[1..] + after;
      PrintAppends(before[1..], after, name);
    }
  }

  lemma NothingPrinted(name: string)
    ensures Print([], name) == "" && PlainPrint([]) == ""
  {
  }

  lemma PrintsSomething(tokens: seq<Token>, name: string)
    requires PlainName(name) && tokens != [] && Lexical(tokens)
    ensures Print(tokens, name) != ""
  {
    hide Lexical, Print;
    FirstChar(tokens, name);
  }

  /** The first token of a definition stands before the rest of it and the text behind. */
  lemma FirstStands(boundary: bool, before: seq<Token>, text: string, schema: string, name: string)
    requires PlainName(name) && before != [] && Lexical(before) && Behind(before, text)
    requires !StrayFirst(schema, boundary, before)
    ensures StandsBefore(schema, boundary, before[0], Lookahead(before[1..]), Print(before[1..], name) + text)
  {
    hide Print, Outside, Called, LexicalToken, Tag;
    var rest := before[1..];
    if rest != [] {
      assert [before[0]] + rest == before;
      TokenStandsBefore(boundary, before[0], rest, schema, name);
      PrintsSomething(rest, name);
    } else {
      NothingPrinted(name);
      assert "" + text == text;
    }
  }

  lemma Regroup(a: string, b: string, c: string)
    ensures (a + b) + c == a + (b + c)
  {
  }

  lemma FrontPrints(before: seq<Token>, name: string, x: string, y: string)
    requires before != []
    ensures Print(before, name) + x == PrintToken(before[0], name) + (Print(before[1..], name) + x)
    ensures PlainPrint(before) + y == PlainToken(before[0]) + (PlainPrint(before[1..]) + y)
  {
    hide PrintToken, PlainToken;
    Regroup(PrintToken(before[0], name), Print(before[1..], name), x);
    Regroup(PlainToken(before[0]), PlainPrint(before[1..]), y);
  }

  lemma QualifierIsPlain(token: Token)
    ensures token.Qualifier? ==> PlainToken(token) == ""
  {
  }

  /** A well-formed definition passes whatever stands behind it. */
  lemma {:induction false} OutOfFront(
    boundary: bool, before: seq<Token>, text: string, schema: string, name: string)
    requires PlainName(schema) && Called(schema, name) && PlainName(name)
    requires Lexical(before) && !HasStray(schema, boundary, before) && !HasGlued(boundary, before)
    requires Behind(before, text)
    ensures Out(boundary, Print(before, name) + text, None, schema) ==
            PlainPrint(before) + Out(BoundaryBehind(boundary, before), text, None, schema)
    decreases |before|
  {
    hide Out, Called, LexicalToken, Adjoins, StandsBefore, PlainName, PlainToken, Print, PlainPrint;
    if before == [] {
      NothingPrinted(name);
      assert Print(before, name) + text == text;
    } else {
      var token, rest := before[0], before[1..];
      var after := EndsAtBoundary(token);
      assert rest != [] ==> rest[|rest| - 1] == before[|before| - 1];
      FirstStands(boundary, before, text, schema, name);
      OutOfPiece(boundary, token, Lookahead(rest), Print(rest, name) + text, schema, name);
      OutOfFront(after, rest, text, schema, name);
      PrintsPlain(token, name);
      QualifierIsPlain(token);
      FrontPrints(before, name, text, Out(BoundaryBehind(boundary, before), text, None, schema));
    }
  }

  lemma NormalizedIsOut(text: string, schema: string)
    ensures Normalized(text, schema) == Out(true, text, None, schema)
  {
  }

  /** What is made of a shape behind a definition is what is made of the whole. */
  lemma NormalizedBehind(before: seq<Token>, shape: seq<Token>, schema: string)
    requires PlainName(schema) && WellFormed(schema, before) && Behind(before, Print(shape, schema))
    ensures Normalized(Print(before + shape, schema), schema) ==
            PlainPrint(before) + Out(BoundaryBehind(true, before), Print(shape, schema), None, schema)
    ensures PlainPrint(before + shape) == PlainPrint(before) + PlainPrint(shape)
  {
    hide Out, Lexical, HasStray, HasGlued, Print, PlainPrint, Behind, Normalized;
    PrintAppends(before, shape, schema);
    OutOfFront(true, before, Print(shape, schema), schema, schema);
    NormalizedIsOut(Print(before + shape, schema), schema);
  }

  predicate FitsBehind(schema: string, boundary: bool, shape: seq<Token>) {
    Lexical(shape) && !HasStray(schema, boundary, shape) && !HasGlued(boundary, shape)
  }

  lemma FitPasses(boundary: bool, shape: seq<Token>, schema: string)
    requires PlainName(schema) && FitsBehind(schema, boundary, shape)
    ensures Out(boundary, Print(shape, schema), None, schema) == PlainPrint(shape)
  {
    hide Out, Lexical, HasStray, HasGlued, Print, PlainPrint, Residue;
    OutOfPrint(boundary, shape, schema, schema);
    PlainResidue(boundary, shape, schema, schema);
  }

  /** A shape that ends in a qualifier and is either fit to stand in a definition or keeps the
      qualifier passes, behind any well-formed definition, exactly when it is the one. */
  lemma PassesBehindExactlyWhen(
    before: seq<Token>, shape: seq<Token>, mark: char, schema: string, other: string, passes: bool)
    requires PlainName(schema) && PlainName(other) && schema != other
    requires WellFormed(schema, before) && WellFormed(other, before)
    requires Behind(before, Print(shape, schema)) && Behind(before, Print(shape, other))
    requires !NameChar(mark) && mark != '.' && EndsIn(PlainPrint(shape), [mark])
    requires passes ==>
               forall s | s in {schema, other} :: FitsBehind(s, BoundaryBehind(true, before), shape)
    requires !passes ==>
               forall s | s in {schema, other} ::
                 EndsIn(Out(BoundaryBehind(true, before), Print(shape, s), None, s), [mark] + Unquoted(s))
    ensures Unqualifies(before + shape, schema) <==> passes
    ensures SameInBoth(before + shape, schema, other) <==> passes
  {
    hide WellFormed, Behind, Print, PlainPrint, Out, Normalized, BoundaryBehind, FitsBehind, PlainName;
    var boundary := BoundaryBehind(true, before);
    NormalizedBehind(before, shape, schema);
    NormalizedBehind(before, shape, other);
    if passes {
      FitPasses(boundary, shape, schema);
      FitPasses(boundary, shape, other);
    } else {
      EndsInStill(PlainPrint(before), PlainPrint(shape), [mark]);
      EndsInStill(PlainPrint(before), Out(boundary, Print(shape, schema), None, schema), [mark] + Unquoted(schema));
      EndsInStill(PlainPrint(before), Out(boundary, Print(shape, other), None, other), [mark] + Unquoted(other));
      KeptInBoth(before + shape, mark, schema, other);
    }
  }

  // Literals

  /** A string as it is printed under standard-conforming strings: only quotes are doubled. */
  function Doubled(content: string): string {
    if content == "" then ""
    else (if content[0] == '\'' then "''" else [content[0]]) + Doubled(content[1..])
  }

  /** Paired off from the left, backslashes leave none before a quote or at the end. */
  predicate Sound(content: string) {
    if content == "" then true
    else if content[0] == '\\' then |content| >= 2 && content[1] != '\'' && Sound(content[2..])
    else Sound(content[1..])
  }

  /** Half of a doubled quote never reads to the end. */
  lemma {:induction false} QuoteReads(content: string)
    ensures !ReadsToEnd("'" + Doubled(content))
    decreases |content|
  {
    var body := "'" + Doubled(content);
    if content == "" || content[0] != '\'' {
    } else {
      assert Doubled(content) == "''" + Doubled(content[1..]);
      assert body[2..] == "'" + Doubled(content[1..]);
      QuoteReads(content[1..]);
    }
  }

  lemma {:induction false} StandardReads(content: string)
    ensures ReadsToEnd(Doubled(content)) <==> Sound(content)
    decreases |content|
  {
    if content == "" {
    } else {
      var body, tail := Doubled(content), content[1..];
      if content[0] == '\'' {
        assert body[2..] == Doubled(tail);
        StandardReads(tail);
      } else if content[0] != '\\' {
        assert body[1..] == Doubled(tail);
        StandardReads(tail);
      } else if |content| >= 2 {
        assert body[1..] == Doubled(tail);
        if content[1] == '\'' {
          assert Doubled(tail) == "''" + Doubled(tail[1..]);
          assert body[2..] == "'" + Doubled(tail[1..]);
          QuoteReads(tail[1..]);
        } else {
          assert tail[1..] == content[2..];
          assert body[2..] == Doubled(content[2..]);
          StandardReads(content[2..]);
        }
      } else {
        assert tail == "" && body == "\\";
      }
    }
  }

  /** What is scanned of a literal from some point on, and what follows it. */
  function Left(half: bool, content: string, q: string): string {
    (if half then "'" else "") + Doubled(content) + "'" + q
  }

  /** What follows a literal that may be lost: the name and dot of a qualifier. */
  predicate Quiet(q: string) {
    forall c | c in q :: c !in "'\"$"
  }

  lemma QuietEnds(q: string)
    requires Quiet(q)
    ensures '\'' !in q && '"' !in q && '$' !in q
  {
  }

  lemma HalfIsLeft(content: string, q: string)
    ensures Left(true, content, q) == "'" + Left(false, content, q)
  {
    hide Doubled;
  }

  lemma NothingIsLeft(q: string)
    ensures Left(false, "", q) == "'" + q
  {
  }

  lemma MoreIsLeft(content: string, q: string)
    requires content != ""
    ensures Left(false, content, q) ==
            (if content[0] == '\'' then "''" else [content[0]]) + Left(false, content[1..], q)
  {
    var piece := if content[0] == '\'' then "''" else [content[0]];
    assert Doubled(content) == piece + Doubled(content[1..]);
  }

  lemma LeftStarts(content: string, q: string)
    ensures content == "" ==> Left(false, content, q) == "'" + q
    ensures content != "" && content[0] == '\'' ==>
              Left(false, content, q) == "'" + Left(true, content[1..], q)
    ensures content != "" && content[0] != '\'' ==>
              && Left(false, content, q) == [content[0]] + Left(false, content[1..], q)
              && !("'" <= Left(false, content, q))
    ensures Left(true, content, q) == "'" + Left(false, content, q)
  {
    hide Left, Doubled;
    HalfIsLeft(content, q);
    if content == "" {
      NothingIsLeft(q);
    } else {
      MoreIsLeft(content, q);
      HalfIsLeft(content[1..], q);
      if content[0] == '\'' {
        assert "''" + Left(false, content[1..], q) == "'" + ("'" + Left(false, content[1..], q));
      } else {
        assert Left(false, content, q)[0] == content[0];
      }
    }
  }

  /** What cannot hold a quote is read from the content itself. */
  lemma {:induction false} ReadFromContent(piece: string, content: string, q: string)
    requires '\'' !in piece && piece <= Left(false, content, q)
    ensures piece <= content
    ensures Left(false, content, q) == piece + Left(false, content[|piece|..], q)
    decreases |piece|
  {
    hide Left, Doubled;
    var left := Left(false, content, q);
    if piece == "" {
      assert left == "" + left && content[0..] == content;
    } else {
      LeftStarts(content, q);
      assert left[0] == piece[0];
      assert content != "" && content[0] != '\'';
      var rest := Left(false, content[1..], q);
      assert left == [content[0]] + rest && piece == [content[0]] + piece[1..];
      assert piece[1..] <= rest by {
        assert left[1..] == rest && piece[1..] == left[1..|piece|];
      }
      ReadFromContent(piece[1..], content[1..], q);
      assert content[1..][|piece| - 1..] == content[|piece|..];
    }
  }

  lemma QualifierIsMute(schema: string, q: string)
    requires PlainName(schema) && q in Qualifiers(schema)
    ensures q != "" && '\'' !in q
  {
    var name := QualifierForm(schema, q);
    NameIsPlain(name);
  }

  /** A quote that no literal quote can open or close. */
  predicate Mute(d: string) {
    d != "" && d[0] in "\"$" && '\'' !in d
  }

  lemma TokenIsMute(text: string)
    requires text != "" && !("'" <= text)
    ensures var token := Lex(text, None);
            '\'' !in text[..token.length] && (token.quote.Some? ==> Mute(token.quote.value))
  {
    if DollarQuoteDelimiter(text).Some? {
      hide DollarQuoteDelimiter;
      DelimiterInWord(text);
      var d := DollarQuoteDelimiter(text).value;
      assert forall k | 1 <= k < |d| - 1 :: NameChar(d[k]);
    }
  }

  /** Half of a doubled quote is next, inside what the scan takes for a literal. */
  lemma {:induction false} LostInLiteral(boundary: bool, content: string, q: string, schema: string)
    requires PlainName(schema) && Quiet(q)
    ensures EndsIn(Out(boundary, Left(true, content, q), Some("'"), schema), "'" + q)
    decreases |content|, 1, 0
  {
    hide Out, DollarQuoteDelimiter, Quiet;
    var left := Left(true, content, q);
    if content == "" {
      assert left == "''" + q;
      OutKeeps(boundary, "''", q, Some("'"), Some("'"), schema);
      QuietEnds(q);
      OutKeepsQuoted(true, q, "'", schema);
      EndsInStill("'", "'" + q, "'" + q);
      assert "''" + q == "'" + ("'" + q);
    } else if content[0] == '\'' {
      assert left == "''" + Left(true, content[1..], q);
      OutKeeps(boundary, "''", Left(true, content[1..], q), Some("'"), Some("'"), schema);
      LostInLiteral(true, content[1..], q, schema);
      EndsInStill("''", Out(true, Left(true, content[1..], q), Some("'"), schema), "'" + q);
    } else {
      assert left == "'" + Left(false, content, q);
      OutKeeps(boundary, "'", Left(false, content, q), Some("'"), None, schema);
      LostOutside(true, content, q, schema);
      EndsInStill("'", Out(true, Left(false, content, q), None, schema), "'" + q);
    }
  }

  /** The scan is outside any quote in the middle of a literal. */
  lemma {:induction false} LostOutside(boundary: bool, content: string, q: string, schema: string)
    requires PlainName(schema) && Quiet(q)
    ensures EndsIn(Out(boundary, Left(false, content, q), None, schema), "'" + q)
    decreases |content|, 0, 0
  {
    hide Out, DollarQuoteDelimiter, Quiet, Left, Doubled, FirstMatch, Qualifiers;
    var left := Left(false, content, q);
    LeftStarts(content, q);
    if content == "" {
      OutOpens(boundary, "'", q, schema);
      QuietEnds(q);
      OutKeepsQuoted(true, q, "'", schema);
      EndsInStill("", "'" + q, "'" + q);
    } else if content[0] == '\'' {
      OutOpens(boundary, "'", Left(true, content[1..], q), schema);
      LostInLiteral(true, content[1..], q, schema);
      EndsInStill("'", Out(true, Left(true, content[1..], q), Some("'"), schema), "'" + q);
    } else {
      match Skipped(boundary, left, None, schema)
      case Some(found) =>
        QualifierIsMute(schema, found);
        ReadFromContent(found, content, q);
        OutDrops(boundary, found, Left(false, content[|found|..], q), schema);
        LostOutside(!Continues(found[|found| - 1]), content[|found|..], q, schema);
      case None =>
        var token := Lex(left, None);
        var piece := left[..token.length];
        TokenIsMute(left);
        ReadFromContent(piece, content, q);
        var rest, after := Left(false, content[|piece|..], q), !Continues(piece[|piece| - 1]);
        OutKeeps(boundary, piece, rest, None, token.quote, schema);
        if token.quote.None? {
          LostOutside(after, content[|piece|..], q, schema);
        } else {
          LostInQuote(after, false, content[|piece|..], q, token.quote.value, schema);
        }
        EndsInStill(piece, Out(after, rest, token.quote, schema), "'" + q);
    }
  }

  /** The scan is inside an identifier or a dollar quote in the middle of a literal. */
  lemma {:induction false} LostInQuote(
    boundary: bool, half: bool, content: string, q: string, d: string, schema: string)
    requires PlainName(schema) && Quiet(q) && Mute(d)
    ensures EndsIn(Out(boundary, Left(half, content, q), Some(d), schema), "'" + q)
    decreases |content|, 0, if half then 2 else 1
  {
    hide Out, DollarQuoteDelimiter, Quiet, Left, Doubled;
    var left := Left(half, content, q);
    LeftStarts(content, q);
    if half {
      OutKeeps(boundary, "'", Left(false, content, q), Some(d), Some(d), schema);
      LostInQuote(true, false, content, q, d, schema);
      EndsInStill("'", Out(true, Left(false, content, q), Some(d), schema), "'" + q);
    } else if content == "" {
      QuietEnds(q);
      OutKeepsQuoted(boundary, "'" + q, d, schema);
      EndsInStill("", "'" + q, "'" + q);
    } else if content[0] == '\'' {
      OutKeeps(boundary, "'", Left(true, content[1..], q), Some(d), Some(d), schema);
      LostInQuote(true, true, content[1..], q, d, schema);
      EndsInStill("'", Out(true, Left(true, content[1..], q), Some(d), schema), "'" + q);
    } else if d <= left {
      ReadFromContent(d, content, q);
      var rest, after := Left(false, content[|d|..], q), !Continues(d[|d| - 1]);
      OutKeeps(boundary, d, rest, Some(d), None, schema);
      LostOutside(after, content[|d|..], q, schema);
      EndsInStill(d, Out(after, rest, None, schema), "'" + q);
    } else {
      var rest, after := Left(false, content[1..], q), !Continues(content[0]);
      OutKeeps(boundary, [content[0]], rest, Some(d), Some(d), schema);
      LostInQuote(after, false, content[1..], q, d, schema);
      EndsInStill([content[0]], Out(after, rest, Some(d), schema), "'" + q);
    }
  }

  /** An unpaired backslash before a quote or at the end of a literal makes the scan lose it. */
  lemma {:induction false} LosesLiteral(boundary: bool, content: string, q: string, schema: string)
    requires PlainName(schema) && Quiet(q) && !Sound(content)
    ensures EndsIn(Out(boundary, Left(false, content, q), Some("'"), schema), "'" + q)
    decreases |content|
  {
    hide Out, DollarQuoteDelimiter, Quiet, Left, Doubled;
    LeftStarts(content, q);
    var tail := content[1..];
    LeftStarts(tail, q);
    if content[0] == '\'' {
      assert Left(false, content, q) == "''" + Left(false, tail, q);
      OutKeeps(boundary, "''", Left(false, tail, q), Some("'"), Some("'"), schema);
      LosesLiteral(true, tail, q, schema);
      EndsInStill("''", Out(true, Left(false, tail, q), Some("'"), schema), "'" + q);
    } else if content[0] != '\\' {
      var after := !Continues(content[0]);
      OutKeeps(boundary, [content[0]], Left(false, tail, q), Some("'"), Some("'"), schema);
      LosesLiteral(after, tail, q, schema);
      EndsInStill([content[0]], Out(after, Left(false, tail, q), Some("'"), schema), "'" + q);
    } else if tail == "" {
      assert Left(false, content, q) == "\\'" + q;
      OutKeeps(boundary, "\\'", q, Some("'"), Some("'"), schema);
      QuietEnds(q);
      OutKeepsQuoted(true, q, "'", schema);
      EndsInStill("\\", "'" + q, "'" + q);
      assert "\\'" + q == "\\" + ("'" + q);
    } else if tail[0] == '\'' {
      var rest := Left(true, tail[1..], q);
      assert Left(false, content, q) == "\\'" + rest;
      OutKeeps(boundary, "\\'", rest, Some("'"), Some("'"), schema);
      LostInLiteral(true, tail[1..], q, schema);
      EndsInStill("\\'", Out(true, rest, Some("'"), schema), "'" + q);
    } else {
      var piece, rest := ['\\', tail[0]], Left(false, tail[1..], q);
      var after := !Continues(tail[0]);
      assert Left(false, content, q) == piece + rest;
      assert tail[1..] == content[2..];
      OutKeeps(boundary, piece, rest, Some("'"), Some("'"), schema);
      LosesLiteral(after, tail[1..], q, schema);
      EndsInStill(piece, Out(after, rest, Some("'"), schema), "'" + q);
    }
  }

  /** A literal and a qualifier right behind it. */
  function LiteralShape(content: string): seq<Token> {
    [Literal(Doubled(content)), Qualifier(false)]
  }

  lemma QualifierPrints(schema: string)
    ensures Print([Qualifier(false)], schema) == Unquoted(schema)
    ensures PlainPrint([Qualifier(false)]) == ""
  {
    var last := [Qualifier(false)];
    assert last[1..] == [];
    assert PlainPrint(last[1..]) == "" && Print(last[1..], schema) == "";
  }

  lemma LeftIs(content: string, q: string)
    ensures "'" + Left(false, content, q) == ("'" + Doubled(content) + "'") + q
  {
    hide Doubled;
  }

  lemma LiteralPrints(content: string, schema: string)
    ensures Print(LiteralShape(content), schema) == "'" + Left(false, content, Unquoted(schema))
    ensures PlainPrint(LiteralShape(content)) == "'" + Doubled(content) + "'"
  {
    hide Doubled, Left, Unquoted;
    var tokens, last := LiteralShape(content), [Qualifier(false)];
    assert tokens[1..] == last;
    QualifierPrints(schema);
    LeftIs(content, Unquoted(schema));
  }

  lemma LiteralLosesQualifier(boundary: bool, content: string, schema: string)
    requires PlainName(schema) && !Sound(content)
    ensures EndsIn(Out(boundary, Print(LiteralShape(content), schema), None, schema), "'" + Unquoted(schema))
  {
    hide Out, Left, Print, PlainPrint;
    var q := Unquoted(schema);
    NameIsPlain(schema);
    assert Quiet(q);
    LiteralPrints(content, schema);
    OutOpens(boundary, "'", Left(false, content, q), schema);
    LosesLiteral(true, content, q, schema);
    EndsInStill("'", Out(true, Left(false, content, q), Some("'"), schema), "'" + q);
  }

  lemma LiteralFits(boundary: bool, content: string, schema: string)
    requires ReadsToEnd(Doubled(content))
    ensures FitsBehind(schema, boundary, LiteralShape(content))
  {
    hide ReadsToEnd, Doubled, Called;
    var tokens, last := LiteralShape(content), [Qualifier(false)];
    assert tokens[1..] == last && last[1..] == [];
    assert Lexical(last) && !HasStray(schema, true, last) && !HasGlued(true, last);
  }

  /** For every content of a standard-conforming string: a literal of it can stand behind any
      well-formed definition if and only if no unpaired backslash stands before a quote or at its
      end. Otherwise a qualifier behind it is kept in both schemas. */
  lemma LiteralPassesExactlyWhen(before: seq<Token>, content: string, schema: string, other: string)
    requires PlainName(schema) && PlainName(other) && schema != other
    requires WellFormed(schema, before) && WellFormed(other, before)
    ensures ReadsToEnd(Doubled(content)) <==> Sound(content)
    ensures Unqualifies(before + LiteralShape(content), schema) <==> Sound(content)
    ensures SameInBoth(before + LiteralShape(content), schema, other) <==> Sound(content)
  {
    hide Sound, ReadsToEnd, Unqualifies, SameInBoth, Doubled, WellFormed, Print, PlainPrint, FitsBehind;
    hide LiteralShape, BoundaryBehind, PlainName, Out;
    var boundary := BoundaryBehind(true, before);
    StandardReads(content);
    LiteralPrints(content, schema);
    LiteralPrints(content, other);
    if Sound(content) {
      LiteralFits(boundary, content, schema);
      LiteralFits(boundary, content, other);
    } else {
      LiteralLosesQualifier(boundary, content, schema);
      LiteralLosesQualifier(boundary, content, other);
    }
    PassesBehindExactlyWhen(before, LiteralShape(content), '\'', schema, other, Sound(content));
  }

  lemma NothingIsWellFormed()
    ensures forall schema :: WellFormed(schema, [])
  {
  }

  /** A single backslash, as PostgreSQL prints it. */
  lemma BackslashDiffers()
    ensures Doubled("\\") == "\\" && !SameInBoth(LiteralShape("\\"), "n", "pg_temp_1")
  {
    assert "n"[0] != "pg_temp_1"[0];
    NothingIsWellFormed();
    LiteralPassesExactlyWhen([], "\\", "n", "pg_temp_1");
    assert [] + LiteralShape("\\") == LiteralShape("\\");
  }

  // Words and dollar-quote tags

  /** Something, a space and a qualifier. */
  function SpacedShape(token: Token): seq<Token> {
    [token, Mark(' '), Qualifier(false)]
  }

  lemma SpacePrints(schema: string)
    ensures Print([Mark(' '), Qualifier(false)], schema) == " " + Unquoted(schema)
    ensures PlainPrint([Mark(' '), Qualifier(false)]) == " "
  {
    var tail, last := [Mark(' '), Qualifier(false)], [Qualifier(false)];
    assert tail[1..] == last;
    QualifierPrints(schema);
  }

  lemma SpaceIsWellFormed(schema: string, boundary: bool)
    ensures Lexical([Mark(' '), Qualifier(false)])
    ensures !HasStray(schema, boundary, [Mark(' '), Qualifier(false)])
    ensures !HasGlued(boundary, [Mark(' '), Qualifier(false)])
  {
    hide Called;
    var tail, last := [Mark(' '), Qualifier(false)], [Qualifier(false)];
    assert tail[1..] == last && last[1..] == [];
    assert Lexical(last) && !HasStray(schema, true, last) && !HasGlued(true, last);
  }

  lemma SpacedPrint(token: Token, schema: string)
    requires !token.Qualifier?
    ensures Print(SpacedShape(token), schema) == PlainToken(token) + (" " + Unquoted(schema))
    ensures EndsIn(PlainPrint(SpacedShape(token)), " ")
  {
    hide PlainToken;
    SpacePrints(schema);
    var tokens := SpacedShape(token);
    assert tokens[1..] == [Mark(' '), Qualifier(false)];
  }

  lemma SpacedFits(boundary: bool, token: Token, schema: string)
    requires LexicalToken(token) && !token.Qualifier?
    requires token.Word? ==> Outside(token.text, None, |token.text|)
    ensures FitsBehind(schema, boundary, SpacedShape(token))
  {
    hide LexicalToken, Outside, Called;
    SpaceIsWellFormed(schema, EndsAtBoundary(token));
    var tokens := SpacedShape(token);
    assert tokens[1..] == [Mark(' '), Qualifier(false)];
    assert token.Word? ==> token.text + Lookahead(tokens[1..]) == token.text;
    assert Adjoins(token, tokens[1..]);
    assert !StrayFirst(schema, boundary, tokens);
    assert !HasStray(schema, boundary, tokens) && !HasGlued(boundary, tokens);
  }

  lemma SpaceEnds(text: string, name: string)
    ensures EndsIn(text + (" " + Unquoted(name)), [' '] + Unquoted(name))
  {
    assert " " == [' '];
  }

  /** A token that either fits or keeps all the text behind it passes exactly when it fits. */
  lemma SpacedPassesExactlyWhen(
    before: seq<Token>, token: Token, schema: string, other: string, passes: bool)
    requires PlainName(schema) && PlainName(other) && schema != other && !token.Qualifier?
    requires WellFormed(schema, before) && WellFormed(other, before)
    requires Behind(before, PlainToken(token))
    requires passes ==> LexicalToken(token) && (token.Word? ==> Outside(token.text, None, |token.text|))
    requires !passes ==>
               forall s | s in {schema, other} ::
                 Out(BoundaryBehind(true, before), Print(SpacedShape(token), s), None, s)
                 == Print(SpacedShape(token), s)
    ensures Unqualifies(before + SpacedShape(token), schema) <==> passes
    ensures SameInBoth(before + SpacedShape(token), schema, other) <==> passes
  {
    hide LexicalToken, Outside, Unqualifies, SameInBoth, Print, PlainPrint, PlainToken, WellFormed, Out;
    hide SpacedShape, BoundaryBehind, FitsBehind, PlainName, Unquoted;
    var boundary := BoundaryBehind(true, before);
    SpacedPrint(token, schema);
    SpacedPrint(token, other);
    if passes {
      SpacedFits(boundary, token, schema);
      SpacedFits(boundary, token, other);
    } else {
      SpaceEnds(PlainToken(token), schema);
      SpaceEnds(PlainToken(token), other);
    }
    PassesBehindExactlyWhen(before, SpacedShape(token), ' ', schema, other, passes);
  }

  lemma OpensWithDollar(quote: Option<string>)
    requires InWord(quote)
    ensures quote.Some? ==> quote.value != "" && quote.value[0] == '$'
  {
  }

  lemma SpaceFollows(rest: string)
    requires rest != "" && rest[0] == ' '
    ensures ComesAfter("", rest)
  {
  }

  lemma StaysInside(word: string, quote: Option<string>)
    requires word != "" && (quote.Some? ==> quote.value != "") && !Outside(word, quote, |word|)
    ensures var token := Lex(word, quote);
            !Outside(word[token.length..], token.quote, |word| - token.length)
  {
  }

  lemma OpenWordSteps(
    boundary: bool, word: string, rest: string, quote: Option<string>, schema: string)
    returns (piece: string, tail: string, quote': Option<string>)
    requires word != "" && AllContinue(word) && ComesAfter("", rest) && InWord(quote)
    requires !Outside(word, quote, |word|)
    requires Skipped(boundary, word + rest, quote, schema).None?
    ensures word == piece + tail && |tail| < |word| && AllContinue(tail) && InWord(quote')
    ensures !Outside(tail, quote', |tail|)
    ensures Out(boundary, word + rest, quote, schema) == piece + Out(false, tail + rest, quote', schema)
  {
    hide Out, Outside, Skipped, ComesAfter, Lex, InWord, Continues, DollarQuoteDelimiter;
    InWordIsText(quote);
    assert word + "" == word;
    var token := Lex(word, quote);
    var n := token.length;
    LexesAlike(word, "", rest, quote);
    piece, tail, quote' := word[..n], word[n..], token.quote;
    assert word + rest == piece + (tail + rest);
    OutKeeps(boundary, piece, tail + rest, quote, quote', schema);
    assert Continues(word[n - 1]);
    StaysInside(word, quote);
  }

  /** A dollar quote that a word opens and does not close takes in everything behind it. */
  lemma {:induction false} WordStaysOpen(
    boundary: bool, word: string, rest: string, quote: Option<string>, schema: string)
    requires AllContinue(word) && InWord(quote) && !Outside(word, quote, |word|)
    requires rest != "" && rest[0] == ' ' && '$' !in rest
    requires word != "" ==> Skipped(boundary, word + rest, quote, schema).None?
    ensures Out(boundary, word + rest, quote, schema) == word + rest
    decreases |word|
  {
    hide Out, Outside, Skipped, ComesAfter, InWord, AllContinue, Lex, Continues;
    if word == "" {
      OpensWithDollar(quote);
      AtEnd(word, quote);
      assert word + rest == rest;
      OutKeepsQuoted(boundary, rest, quote.value, schema);
    } else {
      SpaceFollows(rest);
      var piece, tail, quote' := OpenWordSteps(boundary, word, rest, quote, schema);
      NothingSkipped(false, tail + rest, quote', schema);
      WordStaysOpen(false, tail, rest, quote', schema);
      assert word + rest == piece + (tail + rest);
    }
  }

  lemma OpenWordKeeps(boundary: bool, word: string, schema: string)
    requires PlainName(schema) && word != "" && AllContinue(word) && !Outside(word, None, |word|)
    ensures Out(boundary, Print(SpacedShape(Word(word)), schema), None, schema) ==
            Print(SpacedShape(Word(word)), schema)
  {
    hide Outside, Out, Matches, AllContinue, Print, PlainPrint, PlainName;
    var rest := " " + Unquoted(schema);
    SpacedPrint(Word(word), schema);
    NameIsPlain(schema);
    if Matches(schema, word + rest) {
      WordMatch(schema, word, rest);
    }
    NothingSkipped(boundary, word + rest, None, schema);
    WordStaysOpen(boundary, word, rest, None, schema);
  }

  /** For every word: it can stand behind any well-formed definition that does not end in a word
      if and only if the lexer is outside every dollar quote at its end. Otherwise a qualifier
      behind it is kept in both schemas. */
  lemma WordPassesExactlyWhen(before: seq<Token>, word: string, schema: string, other: string)
    requires PlainName(schema) && PlainName(other) && schema != other
    requires WellFormed(schema, before) && WellFormed(other, before)
    requires before != [] ==> !before[|before| - 1].Word?
    requires word != "" && AllContinue(word)
    ensures Unqualifies(before + SpacedShape(Word(word)), schema) <==> Outside(word, None, |word|)
    ensures SameInBoth(before + SpacedShape(Word(word)), schema, other) <==> Outside(word, None, |word|)
  {
    hide Unqualifies, SameInBoth, Outside, Print, Out, WellFormed, BoundaryBehind, PlainName, SpacedShape;
    var boundary := BoundaryBehind(true, before);
    if !Outside(word, None, |word|) {
      OpenWordKeeps(boundary, word, schema);
      OpenWordKeeps(boundary, word, other);
    }
    assert Continues(word[0]) && !Continues('.');
    SpacedPassesExactlyWhen(before, Word(word), schema, other, Outside(word, None, |word|));
  }

  lemma DollarWordOpens()
    ensures !Outside("a$x$", None, 4)
  {
    var tail := "$x$";
    assert Lex("a$x$", None) == Lexed(1, None) && "a$x$"[1..] == tail;
    assert tail[1..] == "x$" && "x$"[1..] == "$";
    assert Find("$", '$') == Some(0) && Find("x$", '$') == Some(1);
    assert tail[1..2] == "x" && tail[..3] == tail;
    DelimiterAt(tail, 1);
    assert Lex(tail, None) == Lexed(3, Some(tail)) && tail[3..] == "";
    assert !Outside(tail, None, 3);
  }

  /** A name that PostgreSQL takes for a single word. */
  lemma DollarInWordDiffers()
    ensures !SameInBoth(SpacedShape(Word("a$x$")), "n", "pg_temp_1")
  {
    hide SameInBoth, Outside, Print, SpacedShape, WellFormed;
    var word := "a$x$";
    DollarWordOpens();
    assert "n"[0] != "pg_temp_1"[0];
    NothingIsWellFormed();
    WordPassesExactlyWhen([], word, "n", "pg_temp_1");
    assert [] + SpacedShape(Word(word)) == SpacedShape(Word(word));
  }

  lemma SamePrintsSame(tokens: seq<Token>, tokens': seq<Token>, schema: string, other: string)
    requires Print(tokens, schema) == Print(tokens', schema)
    requires Print(tokens, other) == Print(tokens', other)
    requires PlainPrint(tokens) == PlainPrint(tokens')
    ensures Unqualifies(tokens, schema) == Unqualifies(tokens', schema)
    ensures SameInBoth(tokens, schema, other) == SameInBoth(tokens', schema, other)
  {
    hide Print, PlainPrint, Normalized;
  }

  lemma PrintMore(token: Token, rest: seq<Token>, schema: string)
    ensures Print([token] + rest, schema) == PrintToken(token, schema) + Print(rest, schema)
    ensures PlainPrint([token] + rest) == PlainToken(token) + PlainPrint(rest)
  {
    hide PrintToken, PlainToken;
    assert ([token] + rest)[1..] == rest;
  }

  /** A word, a dollar quote stuck to it, a space and a qualifier. */
  function StuckShape(word: string, tag: string, body: string): seq<Token> {
    [Word(word), DollarQuote(tag, body), Mark(' '), Qualifier(false)]
  }

  /** What the scanner takes the word and the dollar quote for. */
  function StuckWord(word: string, tag: string, body: string): string {
    word + (Delimiter(tag) + body + Delimiter(tag))
  }

  lemma StuckContinues(word: string, tag: string, body: string)
    requires word != "" && AllContinue(word) && Tag(tag) && AllContinue(body)
    ensures StuckWord(word, tag, body) != "" && AllContinue(StuckWord(word, tag, body))
  {
    assert AllContinue(Delimiter(tag));
  }

  lemma StuckPrints(word: string, tag: string, body: string, schema: string)
    ensures Print(StuckShape(word, tag, body), schema) ==
            Print(SpacedShape(Word(StuckWord(word, tag, body))), schema)
    ensures PlainPrint(StuckShape(word, tag, body)) ==
            PlainPrint(SpacedShape(Word(StuckWord(word, tag, body))))
  {
    hide Print, PlainPrint, Unquoted, Delimiter;
    var quote, tail, whole := DollarQuote(tag, body), [Mark(' '), Qualifier(false)], StuckWord(word, tag, body);
    PrintMore(quote, tail, schema);
    PrintMore(Word(word), [quote] + tail, schema);
    PrintMore(Word(whole), tail, schema);
    assert [Word(word)] + ([quote] + tail) == StuckShape(word, tag, body);
    assert [Word(whole)] + tail == SpacedShape(Word(whole));
    assert word + (PlainToken(quote) + Print(tail, schema)) == whole + Print(tail, schema);
    assert word + (PlainToken(quote) + PlainPrint(tail)) == whole + PlainPrint(tail);
  }

  lemma LexesOne(text: string, n: nat, quote: Option<string>, offset: nat)
    requires text != "" && (quote.Some? ==> quote.value != "") && Lex(text, quote).length == n
    ensures 1 <= n <= |text|
    ensures offset > 0 ==>
              (Outside(text, quote, offset) <==>
                 n <= offset && Outside(text[n..], Lex(text, quote).quote, offset - n))
  {
  }

  lemma Opening(text: string)
    requires |text| >= 3 && text[..3] == "$b$"
    ensures Lex(text, None) == Lexed(3, Some("$b$"))
  {
    assert text[0] == text[..3][0] && text[1] == text[..3][1] && text[2] == text[..3][2];
    assert text[1..][1..][0] == '$';
    FindsFirst(text[1..][1..]);
    assert Find(text[1..], '$') == Some(1);
    assert text[1..2] == "b";
    DelimiterAt(text, 1);
  }

  lemma NoOpening()
    ensures Lex("$b", None) == Lexed(1, None)
  {
    assert "$b"[1..] == "b" && "b"[1..] == "";
    assert Find("b", '$').None?;
    NoDelimiter("$b");
  }

  lemma StuckLexes()
    ensures Outside("a$b", None, 3) && !Outside("a$b$", None, 3)
    ensures !Outside("a$b$$$$", None, 7)
    ensures AllContinue("a$b") && AllContinue("a$b$$$$") && LexicalToken(DollarQuote("", ""))
  {
    hide Outside;
    var x, y, z := "a$b", "a$b$", "a$b$$$$";
    NoOpening();
    Opening("$b$");
    Opening("$b$$$$");
    assert x[1..] == "$b" && "$b"[1..] == "b" && "b"[1..] == "";
    assert y[1..] == "$b$" && z[1..] == "$b$$$$" && "$b$$$$"[3..] == "$$$";
    assert "$$$"[1..] == "$$" && "$$"[1..] == "$" && "$"[1..] == "";
    LexesOne(x, 1, None, 3);
    LexesOne("$b", 1, None, 2);
    LexesOne("b", 1, None, 1);
    LexesOne(y, 1, None, 3);
    LexesOne("$b$", 3, None, 2);
    LexesOne(z, 1, None, 7);
    LexesOne("$b$$$$", 3, None, 6);
    LexesOne("$$$", 1, Some("$b$"), 3);
    LexesOne("$$", 1, Some("$b$"), 2);
    LexesOne("$", 1, Some("$b$"), 1);
    AtEnd("", None);
    AtEnd("", Some("$b$"));
    EmptyDollarQuote();
  }

  /** For every word and every dollar quote of word characters stuck to it: they can stand behind
      any well-formed definition that does not end in a word if and only if the lexer is outside
      every dollar quote at their end. */
  lemma StuckPassesExactlyWhen(
    before: seq<Token>, word: string, tag: string, body: string, schema: string, other: string)
    requires PlainName(schema) && PlainName(other) && schema != other
    requires WellFormed(schema, before) && WellFormed(other, before)
    requires before != [] ==> !before[|before| - 1].Word?
    requires word != "" && AllContinue(word) && Tag(tag) && AllContinue(body)
    ensures var tokens, whole := before + StuckShape(word, tag, body), StuckWord(word, tag, body);
            && (Unqualifies(tokens, schema) <==> Outside(whole, None, |whole|))
            && (SameInBoth(tokens, schema, other) <==> Outside(whole, None, |whole|))
  {
    hide Unqualifies, SameInBoth, Outside, Print, PlainPrint, WellFormed, PlainName, AllContinue, Tag;
    hide SpacedShape, StuckShape, StuckWord;
    var shape, whole := StuckShape(word, tag, body), StuckWord(word, tag, body);
    StuckContinues(word, tag, body);
    WordPassesExactlyWhen(before, whole, schema, other);
    forall s | s in {schema, other}
      ensures Print(before + shape, s) == Print(before + SpacedShape(Word(whole)), s)
      ensures PlainPrint(before + shape) == PlainPrint(before + SpacedShape(Word(whole)))
    {
      StuckPrints(word, tag, body, s);
      PrintAppends(before, shape, s);
      PrintAppends(before, SpacedShape(Word(whole)), s);
    }
    SamePrintsSame(before + shape, before + SpacedShape(Word(whole)), schema, other);
  }

  /** A dollar quote stuck to a word that its dollar sign turns into another one. */
  lemma StuckDollarQuoteDiffers()
    ensures LexicalToken(Word("a$b")) && LexicalToken(DollarQuote("", ""))
    ensures Outside("a$b", None, 3) && !Outside("a$b$", None, 3)
    ensures !SameInBoth(StuckShape("a$b", "", ""), "n", "pg_temp_1")
  {
    hide SameInBoth, Print, Outside, StuckShape;
    StuckLexes();
    assert "n"[0] != "pg_temp_1"[0];
    NothingIsWellFormed();
    assert StuckWord("a$b", "", "") == "a$b$$$$";
    StuckPassesExactlyWhen([], "a$b", "", "", "n", "pg_temp_1");
    assert [] + StuckShape("a$b", "", "") == StuckShape("a$b", "", "");
  }

  /** A dollar quote around a single quote. */
  function Tagged(tag: string): Token {
    DollarQuote(tag, "'")
  }

  predicate Unmarked(tag: string) {
    forall k | 0 <= k < |tag| :: tag[k] !in "'\"$."
  }

  lemma SingleQuoteCloses(tag: string)
    requires Unmarked(tag)
    ensures '$' !in tag && ClosesAtEnd("'", Delimiter(tag))
  {
    var text := "'" + Delimiter(tag);
    assert text[0..] == text && text[0] == '\'' && Delimiter(tag)[0] == '$';
  }

  lemma UnknownTagOpensNothing(tag: string, closing: string)
    requires '$' !in tag && !Tag(tag) && closing != "" && closing[0] == '$'
    ensures DollarQuoteDelimiter("$" + (tag + closing)).None?
  {
    hide DollarQuoteDelimiter, Tag;
    var value := "$" + (tag + closing);
    assert value[1..] == tag + closing;
    FindSplits(tag, closing, '$');
    FindsFirst(closing);
    DelimiterAt(value, |tag|);
    assert value[1..|tag| + 1] == tag;
  }

  lemma DollarIsKept(boundary: bool, rest: string, schema: string)
    requires PlainName(schema) && DollarQuoteDelimiter("$" + rest).None?
    ensures Out(boundary, "$" + rest, None, schema) == "$" + Out(false, rest, None, schema)
  {
    hide Out, Matches;
    var text := "$" + rest;
    if Matches(schema, text) {
      MatchStart(schema, text);
    }
    OutKeeps(boundary, "$", rest, None, None, schema);
  }

  lemma DollarIsNoName()
    ensures !NameChar('$')
  {
  }

  lemma MatchHasDot(schema: string, text: string) returns (n: nat)
    requires PlainName(schema) && Matches(schema, text) && (text != "" ==> text[0] != '"')
    ensures n < |text| && text[n] == '.' && forall k | 0 <= k < n :: NameChar(text[k])
  {
    var q := FirstMatch(Qualifiers(schema), text).value;
    var name := QualifierForm(schema, q);
    assert q[0] == text[0] && q == Unquoted(name);
    n := |name|;
    assert text[n] == q[n];
    assert forall k | 0 <= k < n :: text[k] == q[k] == name[k] && NameChar(name[k]);
  }

  /** No qualifier starts in a tag: there is no dot before the dollar sign at its end. */
  lemma NoMatchInTag(tag: string, closing: string, schema: string)
    requires PlainName(schema) && Unmarked(tag) && tag != "" && closing != "" && closing[0] == '$'
    ensures !Matches(schema, tag + closing)
  {
    hide Matches, NameChar;
    var text := tag + closing;
    assert text[0] == tag[0] && text[|tag|] == '$';
    assert forall k | 0 <= k < |tag| :: text[k] == tag[k] && tag[k] != '.';
    DollarIsNoName();
    if Matches(schema, text) {
      var n := MatchHasDot(schema, text);
    }
  }

  lemma OrdinaryIsKept(boundary: bool, c: char, rest: string, schema: string)
    requires c !in "'\"$" && !Matches(schema, [c] + rest)
    ensures Out(boundary, [c] + rest, None, schema) == [c] + Out(!Continues(c), rest, None, schema)
  {
    OutKeeps(boundary, [c], rest, None, None, schema);
  }

  lemma {:induction false} TagIsKept(boundary: bool, tag: string, rest: string, schema: string)
    requires PlainName(schema) && Unmarked(tag) && DollarQuoteDelimiter("$" + rest).None?
    ensures Out(boundary, tag + ("$" + rest), None, schema) == tag + ("$" + Out(false, rest, None, schema))
    decreases |tag|
  {
    hide Out, Matches, DollarQuoteDelimiter;
    var closing := "$" + rest;
    if tag == "" {
      assert tag + closing == closing;
      DollarIsKept(boundary, rest, schema);
    } else {
      var tail := tag[1..];
      NoMatchInTag(tag, closing, schema);
      assert tag + closing == [tag[0]] + (tail + closing);
      OrdinaryIsKept(boundary, tag[0], tail + closing, schema);
      TagIsKept(!Continues(tag[0]), tail, rest, schema);
      var out := "$" + Out(false, rest, None, schema);
      assert tag + out == [tag[0]] + (tail + out);
    }
  }

  lemma UnmarkedHasNoQuote(tag: string, schema: string)
    requires PlainName(schema) && Unmarked(tag)
    ensures '$' !in tag && '\'' !in Delimiter(tag) + (" " + Unquoted(schema))
  {
    NameIsPlain(schema);
  }

  lemma TaggedReads(tag: string, rest: string)
    ensures PlainToken(Tagged(tag)) + rest == "$" + (tag + ("$" + ("'" + (Delimiter(tag) + rest))))
    ensures (Delimiter(tag) + rest)[0] == '$'
  {
  }

  lemma SingleQuoteIsNoTag()
    ensures !Tag("'")
  {
  }

  lemma UnknownTagKeeps(boundary: bool, tag: string, schema: string)
    requires PlainName(schema) && Unmarked(tag) && !Tag(tag)
    ensures Out(boundary, Print(SpacedShape(Tagged(tag)), schema), None, schema) ==
            Print(SpacedShape(Tagged(tag)), schema)
  {
    hide Out, Tag, Unmarked, DollarQuoteDelimiter, Print, PlainName;
    var quoted := Delimiter(tag) + (" " + Unquoted(schema));
    SpacedPrint(Tagged(tag), schema);
    TaggedReads(tag, " " + Unquoted(schema));
    UnmarkedHasNoQuote(tag, schema);
    SingleQuoteIsNoTag();
    UnknownTagOpensNothing(tag, "$" + ("'" + quoted));
    UnknownTagOpensNothing("'", quoted);
    DollarIsKept(boundary, tag + ("$" + ("'" + quoted)), schema);
    TagIsKept(false, tag, "'" + quoted, schema);
    OutOpens(false, "'", quoted, schema);
    OutKeepsQuoted(true, quoted, "'", schema);
  }

  /** For every tag without marks: a dollar quote behind any well-formed definition that does not
      end in a word can have it if and only if it is made of ASCII letters, digits and underscores
      and starts with no digit. PostgreSQL allows other letters. */
  lemma TagPassesExactlyWhen(before: seq<Token>, tag: string, schema: string, other: string)
    requires PlainName(schema) && PlainName(other) && schema != other && Unmarked(tag)
    requires WellFormed(schema, before) && WellFormed(other, before)
    requires before != [] ==> !before[|before| - 1].Word?
    ensures Unqualifies(before + SpacedShape(Tagged(tag)), schema) <==> Tag(tag)
    ensures SameInBoth(before + SpacedShape(Tagged(tag)), schema, other) <==> Tag(tag)
  {
    hide Unqualifies, SameInBoth, Print, Tag, Out, WellFormed, BoundaryBehind, PlainName, SpacedShape;
    var boundary := BoundaryBehind(true, before);
    if Tag(tag) {
      SingleQuoteCloses(tag);
    } else {
      UnknownTagKeeps(boundary, tag, schema);
      UnknownTagKeeps(boundary, tag, other);
    }
    SpacedPassesExactlyWhen(before, Tagged(tag), schema, other, Tag(tag));
  }

  /** A tag with a letter outside ASCII. */
  lemma ForeignTagDiffers()
    ensures !SameInBoth(SpacedShape(Tagged("\U{E9}")), "n", "pg_temp_1")
  {
    assert "n"[0] != "pg_temp_1"[0];
    NothingIsWellFormed();
    TagPassesExactlyWhen([], "\U{E9}", "n", "pg_temp_1");
    assert [] + SpacedShape(Tagged("\U{E9}")) == SpacedShape(Tagged("\U{E9}"));
  }
}
