/** What the qualifier scan drops: all and only the qualifiers that stand at a token boundary
    outside every quote. */
module QualifierScan {
  import opened Wrappers
  import opened Normalizer

  // Nothing is lost or added

  function WholeText(segments: seq<Segment>): string {
    if segments == [] then "" else segments[0].text + WholeText(segments[1..])
  }

  /** How the scan goes on from its first segment. */
  lemma ScanSteps(boundary: bool, text: string, quote: Option<string>, schema: string)
    returns (first: Segment, rest: seq<Segment>)
    requires text != "" && (quote.Some? ==> quote.value != "")
    ensures Scan(boundary, text, quote, schema) == [first] + rest
    ensures match Skipped(boundary, text, quote, schema)
            case Some(q) =>
              first == Dropped(q) && rest == Scan(BoundaryAt(text, |q|), text[|q|..], None, schema)
            case None =>
              var token := Lex(text, quote);
              && first == Kept(text[..token.length])
              && rest == Scan(BoundaryAt(text, token.length), text[token.length..], token.quote, schema)
  {
    var segments := Scan(boundary, text, quote, schema);
    first, rest := segments[0], segments[1..];
  }

  lemma {:induction false} LengthsAddUp(segments: seq<Segment>)
    ensures |WholeText(segments)| == |KeptText(segments)| + |DroppedText(segments)|
  {
    if segments == [] {
    } else {
      LengthsAddUp(segments[1..]);
    }
  }

  lemma WholeOf(first: Segment, rest: seq<Segment>, text: string)
    requires first.text <= text && WholeText(rest) == text[|first.text|..]
    ensures WholeText([first] + rest) == text
  {
    assert ([first] + rest)[1..] == rest;
  }

  predicate OnlyQualifiers(segments: seq<Segment>, schema: string) {
    forall segment | segment in segments :: segment.Dropped? ==> segment.text in Qualifiers(schema)
  }

  /** The segments are the text, cut, and only qualifiers are dropped. */
  lemma {:induction false} ScanCutsText(
    boundary: bool, text: string, quote: Option<string>, schema: string)
    requires quote.Some? ==> quote.value != ""
    ensures WholeText(Scan(boundary, text, quote, schema)) == text
    ensures OnlyQualifiers(Scan(boundary, text, quote, schema), schema)
    decreases |text|
  {
    if text == "" {
    } else {
      hide Scan, Lex, Qualifiers, WholeText;
      var first, rest := ScanSteps(boundary, text, quote, schema);
      match Skipped(boundary, text, quote, schema)
      case Some(q) => ScanCutsText(BoundaryAt(text, |q|), text[|q|..], None, schema);
      case None =>
        var token := Lex(text, quote);
        ScanCutsText(BoundaryAt(text, token.length), text[token.length..], token.quote, schema);
      WholeOf(first, rest, text);
    }
  }

  // No two qualifiers match in one place

  lemma {:induction false} AllQuotes(name: string, text: string, k: nat)
    requires Unquoted(name) <= text && Quoted(name) <= text && k < |name|
    ensures name[k] == '"'
  {
    assert text[k] == name[k] && text[k] == Quoted(name)[k];
    if k == 0 {
    } else {
      AllQuotes(name, text, k - 1);
    }
  }

  lemma FormsExclude(name: string, text: string)
    ensures !(Unquoted(name) <= text && Quoted(name) <= text)
  {
    if Unquoted(name) <= text && Quoted(name) <= text {
      assert text[|name|] == '.' && text[|name|] == Quoted(name)[|name|];
      if |name| > 0 {
        AllQuotes(name, text, |name| - 1);
      }
    }
  }

  /** Whatever the schema is called, at most one of its qualifiers matches. */
  lemma OneQualifierMatches(schema: string, text: string, q: string, q': string)
    requires q in Qualifiers(schema) && q' in Qualifiers(schema) && q <= text && q' <= text
    ensures q == q'
  {
    FormsExclude(schema, text);
    if "pg_temp_" <= schema {
      assert schema[0] == 'p' && schema[7] == '_';
      assert Unquoted(schema)[0] == 'p' && Unquoted(schema)[7] == '_' && Unquoted("pg_temp")[7] == '.';
      assert Quoted(schema)[8] == '_' && Quoted("pg_temp")[8] == '"';
      assert Unquoted("pg_temp")[0] == 'p' && Quoted(schema)[0] == '"' && Quoted("pg_temp")[0] == '"';
    }
  }

  /** So the order in which they are tried makes no difference. */
  lemma OrderIsIrrelevant(schema: string, qualifiers: seq<string>, text: string)
    requires forall q :: q in qualifiers <==> q in Qualifiers(schema)
    ensures FirstMatch(qualifiers, text) == FirstMatch(Qualifiers(schema), text)
  {
    var x, y := FirstMatch(qualifiers, text), FirstMatch(Qualifiers(schema), text);
    if x.Some? && y.Some? {
      OneQualifierMatches(schema, text, x.value, y.value);
    }
    assert x.Some? ==> x.value in Qualifiers(schema);
    assert y.Some? ==> y.value in qualifiers;
  }

  // All and only

  /** Schema names as the program uses them. */
  predicate PlainName(name: string) {
    name != "" && forall k | 0 <= k < |name| :: NameChar(name[k])
  }

  /** How the schema may be called in a definition: by its name, or a temporary one by its alias. */
  predicate Called(schema: string, name: string) {
    name == schema || ("pg_temp_" <= schema && name == "pg_temp")
  }

  predicate Matches(schema: string, text: string) {
    FirstMatch(Qualifiers(schema), text).Some?
  }

  /** A segment that starts at the offset was dropped. */
  predicate DroppedAt(segments: seq<Segment>, offset: nat) {
    if segments == [] then false
    else if offset == 0 && segments[0].Dropped? then true
    else if segments[0].text == "" || offset < |segments[0].text| then false
    else DroppedAt(segments[1..], offset - |segments[0].text|)
  }

  lemma DroppedAtFirst(first: Segment, rest: seq<Segment>, offset: nat)
    requires first.text != ""
    ensures DroppedAt([first] + rest, offset) ==
            if offset == 0 then first.Dropped?
            else offset >= |first.text| && DroppedAt(rest, offset - |first.text|)
  {
    assert ([first] + rest)[1..] == rest;
    assert offset == 0 ==> offset < |first.text|;
  }

  lemma QualifierForm(schema: string, q: string) returns (name: string)
    requires PlainName(schema) && q in Qualifiers(schema)
    ensures Called(schema, name) && PlainName(name) && (q == Unquoted(name) || q == Quoted(name))
  {
    name := if q == Unquoted(schema) || q == Quoted(schema) then schema else "pg_temp";
  }

  lemma LexesChar(text: string, quote: Option<string>)
    requires text != "" && text[0] !in "\"'$" && (quote == None || quote == Some("\""))
    ensures Lex(text, quote) == Lexed(1, quote)
  {
  }

  /** The lexer passes one by one over characters that open or close nothing. */
  lemma {:induction false} LexesThrough(text: string, plain: string, quote: Option<string>, offset: nat)
    requires plain <= text && |plain| <= offset
    requires quote == None || quote == Some("\"")
    requires forall k | 0 <= k < |plain| :: plain[k] !in "\"'$"
    ensures Outside(text, quote, offset) == Outside(text[|plain|..], quote, offset - |plain|)
    decreases |plain|
  {
    hide Lex;
    if plain == "" {
      assert text[0..] == text;
    } else {
      assert text[0] == plain[0];
      LexesChar(text, quote);
      LexesThrough(text[1..], plain[1..], quote, offset - 1);
      assert text[1..][|plain| - 1..] == text[|plain|..];
    }
  }

  lemma NameIsPlain(name: string)
    requires PlainName(name)
    ensures forall k | 0 <= k < |name| :: name[k] !in "\"'$."
  {
    assert forall k | 0 <= k < |name| :: NameChar(name[k]);
  }

  /** One character that opens or closes an identifier. */
  lemma LexesDoubleQuote(text: string, offset: nat)
    requires text != "" && text[0] == '"' && 1 <= offset
    ensures Outside(text, None, offset) == Outside(text[1..], Some("\""), offset - 1)
    ensures Outside(text, Some("\""), offset) == Outside(text[1..], None, offset - 1)
  {
    assert Lex(text, None) == Lexed(1, Some("\""));
    assert Lex(text, Some("\"")) == Lexed(1, None);
  }

  /** The lexer passes over a whole qualifier and is outside again. */
  lemma LexesQualifier(text: string, name: string, q: string, offset: nat)
    requires PlainName(name) && (q == Unquoted(name) || q == Quoted(name))
    requires q <= text && |q| <= offset
    ensures Outside(text, None, offset) == Outside(text[|q|..], None, offset - |q|)
  {
    hide Outside;
    NameIsPlain(name);
    if q == Unquoted(name) {
      LexesThrough(text, q, None, offset);
    } else {
      var n := |name|;
      assert text[0] == '"' && text[n + 1] == '"' && text[n + 2] == '.';
      LexesDoubleQuote(text, offset);
      assert name <= text[1..];
      LexesThrough(text[1..], name, Some("\""), offset - 1);
      assert text[1..][n..] == text[n + 1..];
      LexesDoubleQuote(text[n + 1..], offset - n - 1);
      assert text[n + 1..][1..] == text[n + 2..];
      LexesThrough(text[n + 2..], ".", None, offset - n - 2);
      assert text[n + 2..][1..] == text[|q|..];
    }
  }

  /** A match starts with a letter, digit or underscore, or with a double quote. */
  lemma MatchStart(schema: string, text: string)
    requires PlainName(schema) && Matches(schema, text)
    ensures text != "" && (NameChar(text[0]) || text[0] == '"')
  {
    var q := FirstMatch(Qualifiers(schema), text).value;
    var name := QualifierForm(schema, q);
    assert q[0] == text[0];
  }

  /** No qualifier starts inside another one. */
  lemma NoneInside(schema: string, text: string, name: string, q: string, offset: nat)
    requires PlainName(schema) && PlainName(name) && (q == Unquoted(name) || q == Quoted(name))
    requires q <= text && 0 < offset < |q|
    ensures !(Outside(text, None, offset) && BoundaryAt(text, offset) && Matches(schema, text[offset..]))
  {
    NameIsPlain(name);
    if q == Unquoted(name) {
      assert text[offset - 1] == name[offset - 1];
    } else if offset == |q| - 1 {
      assert text[offset] == '.';
      if Matches(schema, text[offset..]) {
        MatchStart(schema, text[offset..]);
      }
    } else {
      var inside := name[..offset - 1];
      assert Lex(text, None) == Lexed(1, Some("\""));
      assert inside <= text[1..];
      LexesThrough(text[1..], inside, Some("\""), offset - 1);
    }
  }

  predicate AtBoundary(boundary: bool, text: string, offset: nat)
    requires offset <= |text|
  {
    if offset == 0 then boundary else BoundaryAt(text, offset)
  }

  lemma RestAgrees(text: string, n: nat, offset: nat)
    requires 1 <= n <= offset && n <= |text|
    ensures offset <= |text| ==>
              && text[n..][offset - n..] == text[offset..]
              && AtBoundary(BoundaryAt(text, n), text[n..], offset - n) == BoundaryAt(text, offset)
  {
  }

  /** A qualifier stands here: at a token boundary, outside every quote. */
  predicate Stands(boundary: bool, text: string, quote: Option<string>, schema: string, offset: nat)
    requires quote.Some? ==> quote.value != ""
  {
    && offset < |text|
    && Outside(text, quote, offset)
    && AtBoundary(boundary, text, offset)
    && Matches(schema, text[offset..])
  }

  lemma StandsHere(boundary: bool, text: string, quote: Option<string>, schema: string)
    requires PlainName(schema) && text != "" && (quote.Some? ==> quote.value != "")
    ensures Stands(boundary, text, quote, schema, 0) <==> Skipped(boundary, text, quote, schema).Some?
  {
    hide Qualifiers, FirstMatch, Continues;
    assert text[0..] == text;
    if Matches(schema, text) {
      MatchStart(schema, text);
    }
  }

  lemma QualifierIsText(schema: string, q: string)
    requires PlainName(schema) && q in Qualifiers(schema)
    ensures q != ""
  {
    var name := QualifierForm(schema, q);
  }

  lemma StandsAfterQualifier(boundary: bool, text: string, schema: string, q: string, offset: nat)
    requires PlainName(schema) && q in Qualifiers(schema) && q <= text && 0 < offset
    ensures Stands(boundary, text, None, schema, offset) <==>
              && |q| <= offset
              && Stands(BoundaryAt(text, |q|), text[|q|..], None, schema, offset - |q|)
  {
    hide Outside, Qualifiers, BoundaryAt, Matches;
    var name := QualifierForm(schema, q);
    if offset < |q| {
      NoneInside(schema, text, name, q, offset);
    } else {
      LexesQualifier(text, name, q, offset);
      RestAgrees(text, |q|, offset);
    }
  }

  lemma StandsAfterToken(
    boundary: bool, text: string, quote: Option<string>, schema: string, offset: nat)
    requires PlainName(schema) && text != "" && (quote.Some? ==> quote.value != "") && 0 < offset
    ensures var token := Lex(text, quote);
            Stands(boundary, text, quote, schema, offset) <==>
              && token.length <= offset
              && Stands(BoundaryAt(text, token.length), text[token.length..], token.quote, schema,
                        offset - token.length)
  {
    hide Lex, BoundaryAt, Matches;
    var token := Lex(text, quote);
    if token.length <= offset {
      RestAgrees(text, token.length, offset);
    }
  }

  /** One step of the scan, and what it means for where qualifiers stand. */
  lemma StepsTogether(
    boundary: bool, text: string, quote: Option<string>, schema: string, offset: nat)
    returns (first: Segment, n: nat, boundary': bool, rest: string, quote': Option<string>)
    requires PlainName(schema) && text != "" && (quote.Some? ==> quote.value != "")
    ensures |first.text| == n && |rest| < |text| && (quote'.Some? ==> quote'.value != "")
    ensures Scan(boundary, text, quote, schema) == [first] + Scan(boundary', rest, quote', schema)
    ensures 1 <= n && (first.Dropped? <==> Stands(boundary, text, quote, schema, 0))
    ensures offset > 0 ==>
              (Stands(boundary, text, quote, schema, offset) <==>
                 n <= offset && Stands(boundary', rest, quote', schema, offset - n))
  {
    hide Scan, Stands, Lex, BoundaryAt, Qualifiers, PlainName;
    var head, tail := ScanSteps(boundary, text, quote, schema);
    first := head;
    StandsHere(boundary, text, quote, schema);
    match Skipped(boundary, text, quote, schema) {
      case Some(q) =>
        n, quote' := |q|, None;
        QualifierIsText(schema, q);
        if offset > 0 {
          StandsAfterQualifier(boundary, text, schema, q, offset);
        }
      case None =>
        var token := Lex(text, quote);
        n, quote' := token.length, token.quote;
        if offset > 0 {
          StandsAfterToken(boundary, text, quote, schema, offset);
        }
    }
    boundary', rest := BoundaryAt(text, n), text[n..];
  }

  lemma NothingStands(boundary: bool, quote: Option<string>, schema: string, offset: nat)
    requires quote.Some? ==> quote.value != ""
    ensures !DroppedAt(Scan(boundary, "", quote, schema), offset)
    ensures !Stands(boundary, "", quote, schema, offset)
  {
  }

  /** The scan drops a qualifier at exactly the offsets where one stands. */
  lemma {:induction false} DropsAllAndOnly(
    boundary: bool, text: string, quote: Option<string>, schema: string, offset: nat)
    requires PlainName(schema) && (quote.Some? ==> quote.value != "")
    ensures DroppedAt(Scan(boundary, text, quote, schema), offset) <==>
              Stands(boundary, text, quote, schema, offset)
    decreases |text|
  {
    hide Scan, DroppedAt, Stands, PlainName;
    if text == "" {
      NothingStands(boundary, quote, schema, offset);
    } else {
      var first, n, boundary', rest, quote' := StepsTogether(boundary, text, quote, schema, offset);
      DroppedAtFirst(first, Scan(boundary', rest, quote', schema), offset);
      if offset >= n {
        DropsAllAndOnly(boundary', rest, quote', schema, offset - n);
      }
    }
  }

  // In the text's own characters

  const SMALL := "abcdefghijklmnopqrstuvwxyz"
  const CAPITAL := "ABCDEFGHIJKLMNOPQRSTUVWXYZ"
  const DIGITS := "0123456789"

  /** ASCII letters, digits and underscores. */
  predicate NamePart(c: char) {
    c in SMALL || c in CAPITAL || c in DIGITS || c == '_'
  }

  lemma SmallIsListed(c: char)
    ensures 'a' <= c <= 'z' <==> c in SMALL
  {
    if 'a' <= c <= 'z' {
      assert c == SMALL[c as int - 'a' as int];
    }
  }

  lemma CapitalIsListed(c: char)
    ensures 'A' <= c <= 'Z' <==> c in CAPITAL
  {
    if 'A' <= c <= 'Z' {
      assert c == CAPITAL[c as int - 'A' as int];
    }
  }

  lemma DigitIsListed(c: char)
    ensures '0' <= c <= '9' <==> c in DIGITS
  {
    if '0' <= c <= '9' {
      assert c == DIGITS[c as int - '0' as int];
    }
  }

  lemma NamePartExactlyWhen(c: char)
    ensures NameChar(c) <==> NamePart(c)
    ensures Numeric(c) <==> c in DIGITS
    ensures Alphabetic(c) <==> c in SMALL || c in CAPITAL
  {
    SmallIsListed(c);
    CapitalIsListed(c);
    DigitIsListed(c);
  }

  /** No name, number or dollar quote runs into this place from before it. */
  predicate StartsToken(text: string, offset: nat)
    requires offset <= |text|
  {
    offset == 0 || !(NamePart(text[offset - 1]) || text[offset - 1] == '$')
  }

  /** The schema is named here, quoted or not, with its dot; a temporary one by its alias too. */
  predicate NamesSchema(rest: string, schema: string) {
    || schema + "." <= rest
    || "\"" + schema + "\"." <= rest
    || ("pg_temp_" <= schema && ("pg_temp." <= rest || "\"pg_temp\"." <= rest))
  }

  /** What the tag of a dollar quote is made of; the first may not be a digit. */
  predicate TagText(tag: string) {
    && (forall k | 0 <= k < |tag| :: NamePart(tag[k]))
    && (tag != "" ==> tag[0] !in DIGITS)
  }

  lemma TagExactlyWhen(tag: string)
    ensures Tag(tag) <==> TagText(tag)
  {
    forall k | 0 <= k < |tag|
      ensures NameChar(tag[k]) <==> NamePart(tag[k])
      ensures Numeric(tag[k]) <==> tag[k] in DIGITS
      ensures Alphabetic(tag[k]) <==> tag[k] in SMALL || tag[k] in CAPITAL
    {
      NamePartExactlyWhen(tag[k]);
    }
    if tag != "" {
      assert tag[0] in DIGITS ==> !Alphabetic(tag[0]) && tag[0] != '_';
    }
  }

  lemma DollarIsNoPart(c: char)
    requires NamePart(c)
    ensures c != '$'
  {
    NamePartExactlyWhen(c);
  }

  /** A dollar quote opens exactly where a tag stands between two dollar signs. */
  lemma DollarQuoteExactlyWhen(text: string, tag: string)
    ensures TagText(tag) && "$" + tag + "$" <= text ==> DollarQuoteDelimiter(text) == Some("$" + tag + "$")
    ensures DollarQuoteDelimiter(text) == Some("$" + tag + "$") ==> TagText(tag) && "$" + tag + "$" <= text
  {
    hide NamePart, NameChar;
    var delimiter := "$" + tag + "$";
    TagExactlyWhen(tag);
    if TagText(tag) && delimiter <= text {
      var n := |tag|;
      assert text[0] == delimiter[0] && text[n + 1] == delimiter[n + 1] == '$';
      assert text[1..][n] == '$' && text[1..][..n] == tag;
      assert '$' !in tag by {
        forall k | 0 <= k < n ensures tag[k] != '$' {
          assert NamePart(tag[k]);
          DollarIsNoPart(tag[k]);
        }
      }
      assert text[1..n + 1] == tag && text[..n + 2] == delimiter;
    }
    if DollarQuoteDelimiter(text) == Some(delimiter) {
      assert delimiter[1..|delimiter| - 1] == tag;
      assert text[1..|delimiter| - 1] == tag;
    }
  }

  lemma MatchesExactlyWhen(schema: string, rest: string)
    ensures Matches(schema, rest) <==> NamesSchema(rest, schema)
  {
    hide FirstMatch;
    var qualifiers := Qualifiers(schema);
    assert qualifiers[0] == schema + "." && qualifiers[1] == "\"" + schema + "\".";
    if "pg_temp_" <= schema {
      assert qualifiers[2] == "pg_temp." && qualifiers[3] == "\"pg_temp\".";
    }
  }

  lemma StandsExactlyWhen(text: string, schema: string, offset: nat)
    requires offset < |text|
    ensures Stands(true, text, None, schema, offset) <==>
              && Outside(text, None, offset)
              && StartsToken(text, offset)
              && NamesSchema(text[offset..], schema)
  {
    hide Outside, NameChar, NamePart, FirstMatch;
    if offset > 0 {
      NamePartExactlyWhen(text[offset - 1]);
    }
    MatchesExactlyWhen(schema, text[offset..]);
  }

  /** The normalizer, exactly: the text is cut into segments; those that are qualifiers standing at
      a token boundary outside every quote are dropped; all the others are the result. */
  lemma NormalizerIsExact(sql: string, schema: string)
    requires PlainName(schema)
    ensures var segments := Scan(true, sql, None, schema);
            && Normalized(sql, schema) == KeptText(segments)
            && WholeText(segments) == sql
            && OnlyQualifiers(segments, schema)
            && |sql| == |Normalized(sql, schema)| + |DroppedText(segments)|
            && forall offset | 0 <= offset < |sql| ::
                 DroppedAt(segments, offset) <==>
                   && Outside(sql, None, offset)
                   && StartsToken(sql, offset)
                   && NamesSchema(sql[offset..], schema)
  {
    hide Scan, Stands, DroppedAt, OnlyQualifiers, StartsToken, NamesSchema;
    LengthsAddUp(Scan(true, sql, None, schema));
    ScanCutsText(true, sql, None, schema);
    forall offset | 0 <= offset < |sql|
      ensures DroppedAt(Scan(true, sql, None, schema), offset) <==>
                && Outside(sql, None, offset)
                && StartsToken(sql, offset)
                && NamesSchema(sql[offset..], schema)
    {
      DropsAllAndOnly(true, sql, None, schema, offset);
      StandsExactlyWhen(sql, schema, offset);
    }
  }
}
