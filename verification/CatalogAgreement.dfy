/** When the prints of a definition in two schemas normalize to the same text. */
module CatalogAgreement {
  import opened Wrappers
  import opened Normalizer
  import opened QualifierScan
  import opened CatalogText

  /** The definition normalizes to its unqualified print. */
  predicate Unqualifies(tokens: seq<Token>, schema: string) {
    Normalized(Print(tokens, schema), schema) == PlainPrint(tokens)
  }

  /** The definition normalizes to the same text in both schemas. */
  predicate SameInBoth(tokens: seq<Token>, schema: string, other: string) {
    Normalized(Print(tokens, schema), schema) == Normalized(Print(tokens, other), other)
  }

  // Stray names and glued qualifiers

  /** What is dropped that is no qualifier. */
  function StrayLength(schema: string, boundary: bool, tokens: seq<Token>): nat
    decreases |tokens|
  {
    if tokens == [] then 0
    else if StrayFirst(schema, boundary, tokens) then
      |PlainToken(tokens[0])| + 1 + StrayLength(schema, true, tokens[2..])
    else StrayLength(schema, EndsAtBoundary(tokens[0]), tokens[1..])
  }

  /** What is kept though it is a qualifier. */
  function GluedLength(boundary: bool, tokens: seq<Token>, name: string): nat
    decreases |tokens|
  {
    if tokens == [] then 0
    else
      (if tokens[0].Qualifier? && !boundary then |PrintToken(tokens[0], name)| else 0)
      + GluedLength(EndsAtBoundary(tokens[0]), tokens[1..], name)
  }

  lemma {:induction false} LengthsBalance(boundary: bool, tokens: seq<Token>, schema: string, name: string)
    ensures |Residue(boundary, tokens, schema, name)| + StrayLength(schema, boundary, tokens) ==
            |PlainPrint(tokens)| + GluedLength(boundary, tokens, name)
    decreases |tokens|
  {
    if tokens == [] {
    } else if StrayFirst(schema, boundary, tokens) {
      assert tokens[1..][1..] == tokens[2..];
      LengthsBalance(true, tokens[2..], schema, name);
      assert PlainPrint(tokens[1..]) == "." + PlainPrint(tokens[2..]);
      assert GluedLength(true, tokens[1..], name) == GluedLength(true, tokens[2..], name);
    } else {
      LengthsBalance(EndsAtBoundary(tokens[0]), tokens[1..], schema, name);
    }
  }

  lemma {:induction false} StraysCount(schema: string, boundary: bool, tokens: seq<Token>)
    ensures HasStray(schema, boundary, tokens) <==> StrayLength(schema, boundary, tokens) > 0
    decreases |tokens|
  {
    if tokens == [] || StrayFirst(schema, boundary, tokens) {
    } else {
      StraysCount(schema, EndsAtBoundary(tokens[0]), tokens[1..]);
    }
  }

  lemma {:induction false} GluedCount(boundary: bool, tokens: seq<Token>, name: string)
    ensures HasGlued(boundary, tokens) <==> GluedLength(boundary, tokens, name) > 0
    decreases |tokens|
  {
    if tokens == [] {
    } else {
      GluedCount(EndsAtBoundary(tokens[0]), tokens[1..], name);
    }
  }

  /** Unless both kinds occur, a definition normalizes to its unqualified print if and only if
      neither does. */
  lemma UnqualifiesExactlyWhen(tokens: seq<Token>, schema: string)
    requires PlainName(schema) && Lexical(tokens)
    requires !(HasStray(schema, true, tokens) && HasGlued(true, tokens))
    ensures Unqualifies(tokens, schema) <==> !HasStray(schema, true, tokens) && !HasGlued(true, tokens)
  {
    hide Lexical, HasStray, HasGlued, Print, PlainPrint, StrayLength, GluedLength, Residue;
    NormalizingLeavesResidue(tokens, schema, schema);
    LengthsBalance(true, tokens, schema, schema);
    StraysCount(schema, true, tokens);
    GluedCount(true, tokens, schema);
    if !HasStray(schema, true, tokens) && !HasGlued(true, tokens) {
      PlainResidue(true, tokens, schema, schema);
    }
  }

  lemma ReadsName(quoted: bool, name: string, rest: string)
    requires PlainName(name)
    ensures var read := (PrintToken(Qualifier(quoted), name) + rest)[if quoted then 1 else 0..];
            name < read && !NameChar(read[|name|])
  {
    hide PlainName;
    var read := (PrintToken(Qualifier(quoted), name) + rest)[if quoted then 1 else 0..];
    var mark := if quoted then '"' else '.';
    assert read[|name|] == mark && read[..|name|] == name;
  }

  lemma NamesDiffer(quoted: bool, a: string, b: string, x: string, y: string)
    requires PlainName(a) && PlainName(b)
    requires PrintToken(Qualifier(quoted), a) + x == PrintToken(Qualifier(quoted), b) + y
    ensures a == b
  {
    hide PlainName, NameChar;
    var text := PrintToken(Qualifier(quoted), a) + x;
    ReadsName(quoted, a, x);
    ReadsName(quoted, b, y);
    SameName(a, b, text[if quoted then 1 else 0..]);
  }

  lemma SameRest(piece: string, x: string, y: string)
    requires piece + x == piece + y
    ensures x == y
  {
    assert x == (piece + x)[|piece|..];
    assert y == (piece + y)[|piece|..];
  }

  // When two schemas agree

  /** The same names read as qualifiers in both schemas. */
  predicate SameStrays(schema: string, other: string, boundary: bool, tokens: seq<Token>)
    decreases |tokens|
  {
    tokens != [] ==>
      && (StrayFirst(schema, boundary, tokens) <==> StrayFirst(other, boundary, tokens))
      && SameStrays(schema, other, EndsAtBoundary(tokens[0]), tokens[1..])
  }

  /** Behind a stray name and its dot all questions are as they were. */
  lemma SkipsStray(schema: string, other: string, boundary: bool, tokens: seq<Token>)
    requires StrayFirst(schema, boundary, tokens)
    ensures |tokens| >= 2
    ensures Lexical(tokens) ==> Lexical(tokens[2..])
    ensures SameStrays(schema, other, EndsAtBoundary(tokens[0]), tokens[1..]) <==>
              SameStrays(schema, other, true, tokens[2..])
    ensures HasGlued(boundary, tokens) <==> HasGlued(true, tokens[2..])
  {
    hide Called, LexicalToken, Adjoins;
    assert tokens[1..][1..] == tokens[2..] && tokens[1..][0] == Mark('.');
    assert HasGlued(EndsAtBoundary(tokens[0]), tokens[1..]) <==> HasGlued(true, tokens[2..]);
    assert Lexical(tokens) ==> Lexical(tokens[1..]) && Lexical(tokens[1..][1..]);
  }

  lemma {:induction false} SameResidues(boundary: bool, tokens: seq<Token>, schema: string, other: string)
    requires SameStrays(schema, other, boundary, tokens) && !HasGlued(boundary, tokens)
    ensures Residue(boundary, tokens, schema, schema) == Residue(boundary, tokens, other, other)
    decreases |tokens|
  {
    hide Called;
    if tokens == [] {
    } else if StrayFirst(schema, boundary, tokens) {
      SkipsStray(schema, other, boundary, tokens);
      SameResidues(true, tokens[2..], schema, other);
    } else {
      SameResidues(EndsAtBoundary(tokens[0]), tokens[1..], schema, other);
    }
  }

  /** The text by which one schema can be ahead of the other: what the other has dropped. */
  datatype Piece = QuotedName(name: string) | Point | NameAndPoint(name: string)

  function PieceText(piece: Piece): string {
    match piece
    case QuotedName(name) => "\"" + name + "\""
    case Point => "."
    case NameAndPoint(name) => name + "."
  }

  function Written(pieces: seq<Piece>): string {
    if pieces == [] then "" else PieceText(pieces[0]) + Written(pieces[1..])
  }

  predicate Ahead(schema: string, other: string, pieces: seq<Piece>) {
    forall piece | piece in pieces ::
      !piece.Point? ==> PlainName(piece.name) && Called(schema, piece.name) && !Called(other, piece.name)
  }

  lemma {:induction false} TextGrows(pieces: seq<Piece>, more: seq<Piece>)
    ensures Written(pieces + more) == Written(pieces) + Written(more)
    decreases |pieces|
  {
    if pieces == [] {
      assert pieces + more == more;
    } else {
      assert (pieces + more)[1..] == pieces[1..] + more;
      TextGrows(pieces[1..], more);
    }
  }

  /** What the other schema keeps of a stray name. */
  function StrayPieces(token: Token): seq<Piece>
    requires token.Word? || token.Identifier?
  {
    if token.Word? then [NameAndPoint(token.text)] else [QuotedName(token.name), Point]
  }

  lemma StrayText(token: Token)
    requires token.Word? || token.Identifier?
    ensures Written(StrayPieces(token)) == PlainToken(token) + "."
  {
    var pieces := StrayPieces(token);
    assert Written(pieces[1..]) == (if token.Word? then "" else "." + Written(pieces[2..]));
  }

  lemma StrayIsAhead(schema: string, other: string, tokens: seq<Token>)
    requires StrayFirst(schema, true, tokens) && !StrayFirst(other, true, tokens)
    requires PlainName(schema)
    ensures Ahead(schema, other, StrayPieces(tokens[0]))
  {
  }

  lemma DotStep(boundary: bool, tokens: seq<Token>, schema: string)
    requires Dot(tokens)
    ensures Residue(boundary, tokens, schema, schema) == "." + Residue(true, tokens[1..], schema, schema)
  {
  }

  lemma PrintsPlain(token: Token, name: string)
    ensures !token.Qualifier? ==> PrintToken(token, name) == PlainToken(token)
  {
  }

  /** A name that strays in one schema only is kept with its dot in the other. */
  lemma KeepsStray(schema: string, other: string, tokens: seq<Token>)
    requires StrayFirst(schema, true, tokens) && !StrayFirst(other, true, tokens)
    ensures |tokens| >= 2
    ensures Residue(true, tokens, schema, schema) == Residue(true, tokens[2..], schema, schema)
    ensures Residue(true, tokens, other, other) ==
            Written(StrayPieces(tokens[0])) + Residue(true, tokens[2..], other, other)
  {
    hide Called, PlainToken, Written, StrayPieces;
    var rest := Residue(true, tokens[2..], other, other);
    StrayText(tokens[0]);
    DotStep(EndsAtBoundary(tokens[0]), tokens[1..], other);
    assert tokens[1..][1..] == tokens[2..];
    PrintsPlain(tokens[0], other);
    assert PlainToken(tokens[0]) + ("." + rest) == PlainToken(tokens[0]) + "." + rest;
  }

  lemma NoNameStarts(token: Token, rest: string, name: string)
    requires LexicalToken(token) && !token.Word? && !token.Qualifier? && PlainName(name)
    ensures !(Unquoted(name) <= PlainToken(token) + rest)
  {
    hide Tag, ClosesAtEnd, ReadsToEnd;
    var text := PlainToken(token) + rest;
    assert !NameChar(text[0]);
    assert Unquoted(name)[0] == name[0] && NameChar(name[0]);
  }

  lemma ResidueOfWord(tokens: seq<Token>, schema: string)
    requires tokens != [] && tokens[0].Word? && !StrayFirst(schema, true, tokens)
    requires Lexical(tokens)
    ensures Residue(true, tokens, schema, schema) ==
            tokens[0].text + Residue(false, tokens[1..], schema, schema)
    ensures LexicalToken(tokens[0]) && Adjoins(tokens[0], tokens[1..]) && Lexical(tokens[1..])
  {
    hide Called, LexicalToken, Adjoins;
  }

  /** What follows a whole word is no name character, and a dot only if it is a mark. */
  lemma AfterWord(rest: seq<Token>, schema: string)
    requires Lexical(rest) && (rest != [] ==> !rest[0].Word? && rest[0] != Qualifier(false))
    ensures var text := Residue(false, rest, schema, schema);
            && (text != "" ==> !NameChar(text[0]) && (text[0] == '.' ==> Dot(rest)))
  {
    hide Called, Tag, ClosesAtEnd, ReadsToEnd, Outside;
  }

  lemma WordIsNotCalled(tokens: seq<Token>, schema: string, name: string)
    requires PlainName(name) && Called(schema, name) && Lexical(tokens)
    requires tokens != [] && tokens[0].Word? && !StrayFirst(schema, true, tokens)
    ensures !(Unquoted(name) <= Residue(true, tokens, schema, schema))
  {
    hide Called, Outside, Lexical, Residue;
    var word, rest := tokens[0].text, Residue(false, tokens[1..], schema, schema);
    ResidueOfWord(tokens, schema);
    AfterWord(tokens[1..], schema);
    var text := word + rest;
    if Unquoted(name) <= text {
      WordIsName(word, rest, name);
    }
  }

  /** At a token boundary, what is left of a definition never starts with a name that the schema
      is called by and a dot. */
  lemma {:induction false} NeverStartsCalled(tokens: seq<Token>, schema: string, name: string)
    requires PlainName(schema) && PlainName(name) && Called(schema, name) && Lexical(tokens)
    ensures !(Unquoted(name) <= Residue(true, tokens, schema, schema))
    decreases |tokens|
  {
    hide Called, LexicalToken, Adjoins;
    if tokens == [] {
    } else if StrayFirst(schema, true, tokens) {
      SkipsStray(schema, schema, true, tokens);
      NeverStartsCalled(tokens[2..], schema, name);
    } else if tokens[0].Qualifier? {
      assert Residue(true, tokens, schema, schema) == Residue(true, tokens[1..], schema, schema);
      NeverStartsCalled(tokens[1..], schema, name);
    } else if tokens[0].Word? {
      WordIsNotCalled(tokens, schema, name);
    } else {
      NoNameStarts(tokens[0], Residue(EndsAtBoundary(tokens[0]), tokens[1..], schema, schema), name);
    }
  }

  lemma NotPrefix(text: string, front: string, more: string, rest: string)
    requires !(front <= text)
    ensures text != (front + more) + rest
  {
    assert front <= (front + more) + rest;
  }

  lemma Grown(x: string, y: string, more: string, rest: string)
    requires x != (y + more) + rest
    ensures x != y + (more + rest)
  {
    assert (y + more) + rest == y + (more + rest);
  }

  /** A piece is passed on by a token of the same text. */
  lemma Passed(piece: string, x: string, behind: string, y: string)
    requires x != (behind + piece) + y
    ensures piece + x != (piece + behind) + (piece + y)
  {
    assert (piece + behind) + (piece + y) == piece + ((behind + piece) + y);
    if piece + x == piece + ((behind + piece) + y) {
      SameRest(piece, x, (behind + piece) + y);
    }
  }

  lemma SameQuoted(name: string, name': string, rest: string)
    requires '"' !in name && PlainName(name')
    requires "\"" + name' + "\"" <= "\"" + name + "\"" + rest
    ensures name == name'
  {
    NameIsPlain(name');
    var text := "\"" + name + "\"" + rest;
    assert text[|name| + 1] == '"' && text[|name'| + 1] == '"';
    assert forall k | 0 <= k < |name| :: text[k + 1] == name[k] != '"';
    assert forall k | 0 <= k < |name'| :: text[k + 1] == name'[k] != '"';
    assert |name| == |name'|;
    assert name == text[1..|name| + 1] && name' == text[1..|name'| + 1];
  }

  /** Only a mark starts with a dot, and only an identifier with a double quote. */
  lemma FrontToken(token: Token, rest: string, front: Piece)
    requires LexicalToken(token) && !token.Qualifier?
    requires front.Point? || (front.QuotedName? && PlainName(front.name))
    requires PieceText(front) <= PlainToken(token) + rest
    ensures if front.Point? then token == Mark('.') else token == Identifier(front.name)
  {
    hide Tag, ClosesAtEnd, ReadsToEnd, PlainName;
    var text := PlainToken(token) + rest;
    assert token.Word? ==> Continues(text[0]);
    assert text[0] == PieceText(front)[0];
    if token.Identifier? && front.QuotedName? {
      SameQuoted(token.name, front.name, rest);
    }
  }

  lemma PlainStep(tokens: seq<Token>, schema: string)
    requires tokens != [] && !tokens[0].Qualifier? && !StrayFirst(schema, true, tokens)
    ensures Residue(true, tokens, schema, schema) ==
            PlainToken(tokens[0]) + Residue(EndsAtBoundary(tokens[0]), tokens[1..], schema, schema)
  {
    hide Called;
  }

  lemma StrayStep(tokens: seq<Token>, schema: string)
    requires StrayFirst(schema, true, tokens)
    ensures |tokens| >= 2
    ensures Residue(true, tokens, schema, schema) == Residue(true, tokens[2..], schema, schema)
  {
    hide Called;
  }

  lemma FrontText(token: Token, front: Piece)
    requires if front.Point? then token == Mark('.') else front.QuotedName? && token == Identifier(front.name)
    ensures PlainToken(token) == PieceText(front)
  {
  }

  lemma AheadTurns(schema: string, other: string, pieces: seq<Piece>)
    requires pieces != [] && Ahead(schema, other, pieces)
    ensures Ahead(schema, other, pieces[1..] + [pieces[0]])
  {
    hide Called, PlainName;
    assert pieces[0] in pieces;
  }

  lemma QualifierStep(tokens: seq<Token>, schema: string)
    requires tokens != [] && tokens[0].Qualifier?
    ensures Residue(true, tokens, schema, schema) == Residue(true, tokens[1..], schema, schema)
  {
  }

  lemma NameText(piece: Piece)
    requires piece.NameAndPoint?
    ensures PieceText(piece) == Unquoted(piece.name)
  {
  }

  lemma NothingWritten(pieces: seq<Piece>, schema: string, other: string)
    requires pieces != []
    ensures Residue(true, [], schema, schema) != Written(pieces) + Residue(true, [], other, other)
  {
    assert |PieceText(pieces[0])| > 0;
  }

  /** The piece in front is passed on, or the texts part. */
  lemma {:induction false} NeverMeetHere(
    pieces: seq<Piece>, tokens: seq<Token>, schema: string, other: string)
    requires PlainName(schema) && PlainName(other) && Lexical(tokens) && tokens != []
    requires pieces != [] && !pieces[0].NameAndPoint? && Ahead(schema, other, pieces)
    requires !StrayFirst(schema, true, tokens) && !tokens[0].Qualifier?
    ensures Residue(true, tokens, schema, schema) != Written(pieces) + Residue(true, tokens, other, other)
    decreases |tokens|, 0
  {
    hide Called, LexicalToken, Adjoins, Residue, PieceText, PlainToken, PlainName;
    var token, front, behind := tokens[0], pieces[0], pieces[1..];
    var rest := Residue(EndsAtBoundary(token), tokens[1..], schema, schema);
    PlainStep(tokens, schema);
    if !(PieceText(front) <= PlainToken(token) + rest) {
      NotPrefix(PlainToken(token) + rest, PieceText(front), Written(behind),
                Residue(true, tokens, other, other));
    } else {
      FrontToken(token, rest, front);
      FrontText(token, front);
      PlainStep(tokens, other);
      AheadTurns(schema, other, pieces);
      NeverMeet(behind + [front], tokens[1..], schema, other);
      TextGrows(behind, [front]);
      assert Written([front]) == PieceText(front) + Written([]) == PieceText(front);
      Passed(PieceText(front), rest, Written(behind), Residue(true, tokens[1..], other, other));
    }
  }

  /** A schema that is ahead stays ahead: quoted names and dots are only passed on, and a name
      with its dot is never passed. */
  lemma {:induction false} NeverMeet(pieces: seq<Piece>, tokens: seq<Token>, schema: string, other: string)
    requires PlainName(schema) && PlainName(other) && Lexical(tokens)
    requires pieces != [] && Ahead(schema, other, pieces)
    ensures Residue(true, tokens, schema, schema) != Written(pieces) + Residue(true, tokens, other, other)
    decreases |tokens|
  {
    hide Called, LexicalToken, Adjoins, Residue, PieceText, PlainToken, PlainName;
    var front, behind := pieces[0], pieces[1..];
    if tokens == [] {
      NothingWritten(pieces, schema, other);
    } else if front.NameAndPoint? {
      assert front in pieces;
      NeverStartsCalled(tokens, schema, front.name);
      assert PieceText(front) == Unquoted(front.name) by {
        NameText(front);
      }
      NotPrefix(Residue(true, tokens, schema, schema), PieceText(front), Written(behind),
                Residue(true, tokens, other, other));
    } else if StrayFirst(schema, true, tokens) {
      SkipsStray(schema, other, true, tokens);
      StrayStep(tokens, schema);
      if StrayFirst(other, true, tokens) {
        StrayStep(tokens, other);
        NeverMeet(pieces, tokens[2..], schema, other);
      } else {
        KeepsStray(schema, other, tokens);
        StrayIsAhead(schema, other, tokens);
        var more := StrayPieces(tokens[0]);
        NeverMeet(pieces + more, tokens[2..], schema, other);
        TextGrows(pieces, more);
        Grown(Residue(true, tokens[2..], schema, schema), Written(pieces), Written(more),
              Residue(true, tokens[2..], other, other));
      }
    } else if tokens[0].Qualifier? {
      QualifierStep(tokens, schema);
      QualifierStep(tokens, other);
      NeverMeet(pieces, tokens[1..], schema, other);
    } else {
      NeverMeetHere(pieces, tokens, schema, other);
    }
  }

  lemma OneStrays(tokens: seq<Token>, schema: string, other: string)
    requires PlainName(schema) && PlainName(other) && Lexical(tokens)
    requires StrayFirst(schema, true, tokens) && !StrayFirst(other, true, tokens)
    ensures Residue(true, tokens, schema, schema) != Residue(true, tokens, other, other)
  {
    hide Called, Residue, Lexical, PlainName, Written;
    KeepsStray(schema, other, tokens);
    StrayIsAhead(schema, other, tokens);
    SkipsStray(schema, other, true, tokens);
    NeverMeet(StrayPieces(tokens[0]), tokens[2..], schema, other);
  }

  /** What one schema keeps that the other drops, or a glued qualifier, sets the texts apart. */
  lemma {:induction false} ResiduesDiffer(boundary: bool, tokens: seq<Token>, schema: string, other: string)
    requires PlainName(schema) && PlainName(other) && schema != other && Lexical(tokens)
    requires !SameStrays(schema, other, boundary, tokens) || HasGlued(boundary, tokens)
    ensures Residue(boundary, tokens, schema, schema) != Residue(boundary, tokens, other, other)
    decreases |tokens|
  {
    hide Called, LexicalToken, Adjoins, PlainName, PlainToken, PrintToken;
    var after := EndsAtBoundary(tokens[0]);
    if StrayFirst(schema, boundary, tokens) && StrayFirst(other, boundary, tokens) {
      SkipsStray(schema, other, boundary, tokens);
      ResiduesDiffer(true, tokens[2..], schema, other);
    } else if StrayFirst(schema, boundary, tokens) {
      OneStrays(tokens, schema, other);
    } else if StrayFirst(other, boundary, tokens) {
      OneStrays(tokens, other, schema);
    } else {
      var x, y := Residue(after, tokens[1..], schema, schema), Residue(after, tokens[1..], other, other);
      if tokens[0].Qualifier? && !boundary {
        if PrintToken(tokens[0], schema) + x == PrintToken(tokens[0], other) + y {
          NamesDiffer(tokens[0].quoted, schema, other, x, y);
        }
      } else {
        ResiduesDiffer(after, tokens[1..], schema, other);
        var piece := if tokens[0].Qualifier? then "" else PlainToken(tokens[0]);
        PrintsPlain(tokens[0], schema);
        PrintsPlain(tokens[0], other);
        if piece + x == piece + y {
          SameRest(piece, x, y);
        }
      }
    }
  }

  /** Two schemas agree on a definition if and only if the same names read as qualifiers in both
      and no qualifier is glued. */
  lemma SameInBothExactlyWhen(tokens: seq<Token>, schema: string, other: string)
    requires PlainName(schema) && PlainName(other) && schema != other && Lexical(tokens)
    ensures SameInBoth(tokens, schema, other) <==>
              SameStrays(schema, other, true, tokens) && !HasGlued(true, tokens)
  {
    hide Lexical, SameStrays, HasGlued, Print, Residue;
    NormalizingLeavesResidue(tokens, schema, schema);
    NormalizingLeavesResidue(tokens, other, other);
    if SameStrays(schema, other, true, tokens) && !HasGlued(true, tokens) {
      SameResidues(true, tokens, schema, other);
    } else {
      ResiduesDiffer(true, tokens, schema, other);
    }
  }

  lemma {:induction false} StraysInNeither(schema: string, other: string, boundary: bool, tokens: seq<Token>)
    requires !HasStray(other, boundary, tokens)
    ensures SameStrays(schema, other, boundary, tokens) <==> !HasStray(schema, boundary, tokens)
    decreases |tokens|
  {
    if tokens == [] {
    } else {
      StraysInNeither(schema, other, EndsAtBoundary(tokens[0]), tokens[1..]);
    }
  }

  /** A schema agrees with one in which nothing reads as a qualifier that is none if and only if
      nothing does in it either and no qualifier is glued. */
  lemma SameAsStrayless(tokens: seq<Token>, schema: string, other: string)
    requires PlainName(schema) && PlainName(other) && schema != other && Lexical(tokens)
    requires !HasStray(other, true, tokens)
    ensures SameInBoth(tokens, schema, other) <==>
              !HasStray(schema, true, tokens) && !HasGlued(true, tokens)
  {
    hide Lexical, SameStrays, HasGlued, HasStray, SameInBoth;
    StraysInNeither(schema, other, true, tokens);
    SameInBothExactlyWhen(tokens, schema, other);
  }

  lemma OneLetter(word: string)
    requires |word| == 1 && NameChar(word[0])
    ensures Outside(word, None, 1) && AllContinue(word)
    ensures Outside(word + "", None, 1)
  {
    assert word + "" == word;
    assert Lex(word, None) == Lexed(1, None);
  }

  /** A column of a table that is called like one schema. */
  lemma StrayNameDiffers()
    ensures var tokens := [Word("n"), Mark('.'), Word("x")];
            Lexical(tokens) && !HasGlued(true, tokens) && !SameInBoth(tokens, "n", "pg_temp_1")
  {
    var tokens := [Word("n"), Mark('.'), Word("x")];
    OneLetter("n");
    OneLetter("x");
    assert tokens[1..] == [Mark('.'), Word("x")] && tokens[1..][1..] == [Word("x")];
    assert tokens[1..][1..][1..] == [];
    assert StrayFirst("n", true, tokens);
    assert !HasStray("pg_temp_1", true, tokens) by {
      assert "n"[0] != "pg_temp_1"[0] && "n"[0] != "pg_temp"[0];
    }
    SameAsStrayless(tokens, "n", "pg_temp_1");
  }

  /** A qualifier stuck to a dollar quote. */
  lemma GluedQualifierDiffers()
    ensures var tokens := [DollarQuote("", ""), Qualifier(false)];
            Lexical(tokens) && HasGlued(true, tokens) && !SameInBoth(tokens, "n", "pg_temp_1")
  {
    var tokens := [DollarQuote("", ""), Qualifier(false)];
    assert tokens[1..] == [Qualifier(false)] && tokens[1..][1..] == [];
    assert HasGlued(false, tokens[1..]);
    SameAsStrayless(tokens, "n", "pg_temp_1");
  }

  lemma StrayAlone()
    ensures var tokens := [Word("n"), Mark('.')];
            && Lexical(tokens) && HasStray("n", true, tokens) && !HasGlued(true, tokens)
            && Residue(true, tokens, "n", "n") == "" && PlainPrint(tokens) == "n."
  {
    var tokens, last := [Word("n"), Mark('.')], [Mark('.')];
    OneLetter("n");
    assert tokens[1..] == last && last[1..] == [] == tokens[2..];
    assert StrayFirst("n", true, tokens);
    assert PlainPrint(last) == "." + PlainPrint([]);
  }

  lemma GluedAndStray()
    ensures var tokens := [Qualifier(false), Word("n"), Mark('.')];
            && Lexical(tokens) && HasStray("n", false, tokens) && HasGlued(false, tokens)
            && Residue(false, tokens, "n", "n") == "n." && PlainPrint(tokens) == "n."
  {
    hide Called, Outside, ClosesAtEnd;
    var tokens, stray := [Qualifier(false), Word("n"), Mark('.')], [Word("n"), Mark('.')];
    StrayAlone();
    assert tokens[1..] == stray;
    assert Residue(false, tokens, "n", "n") == "n." + "";
    assert PlainPrint(tokens) == "" + "n.";
  }

  lemma EmptyDollarQuote()
    ensures LexicalToken(DollarQuote("", ""))
  {
  }

  /** Where both kinds occur, the losses can make up for each other in one schema. */
  lemma LossesCanMeet()
    ensures var tokens := [DollarQuote("", ""), Qualifier(false), Word("n"), Mark('.')];
            && Lexical(tokens) && HasStray("n", true, tokens) && HasGlued(true, tokens)
            && Unqualifies(tokens, "n")
  {
    hide Called, Outside, ClosesAtEnd, LexicalToken, PlainToken, Normalized, Print;
    var tokens := [DollarQuote("", ""), Qualifier(false), Word("n"), Mark('.')];
    GluedAndStray();
    EmptyDollarQuote();
    assert tokens[1..] == [Qualifier(false), Word("n"), Mark('.')];
    NormalizingLeavesResidue(tokens, "n", "n");
  }
}
