/** Removing schema qualifiers from SQL text. One scan copies the text, skips every qualifier it
    meets at a token boundary outside quotes, and copies everything quoted as it stands. */
module Normalizer {
  import opened Wrappers

  // Characters and quotes

  predicate Alphabetic(c: char) {
    'a' <= c <= 'z' || 'A' <= c <= 'Z'
  }

  predicate Numeric(c: char) {
    '0' <= c <= '9'
  }

  predicate NameChar(c: char) {
    Alphabetic(c) || Numeric(c) || c == '_'
  }

  /** No token starts right after one of these. */
  predicate Continues(c: char) {
    NameChar(c) || c == '$'
  }

  predicate BoundaryAt(sql: string, index: nat)
    requires index <= |sql|
  {
    index == 0 || !Continues(sql[index - 1])
  }

  function Find(text: string, c: char): (at: Option<nat>)
    ensures at.Some? ==> at.value < |text| && text[at.value] == c && c !in text[..at.value]
    ensures at.None? ==> c !in text
  {
    if text == "" then None
    else if text[0] == c then Some(0)
    else
      match Find(text[1..], c)
      case None => None
      case Some(k) => Some(k + 1)
  }

  predicate Tag(tag: string) {
    tag == "" || ((Alphabetic(tag[0]) || tag[0] == '_') && forall k | 1 <= k < |tag| :: NameChar(tag[k]))
  }

  /** The dollar quote that opens at the start of the text, if one does. */
  function DollarQuoteDelimiter(value: string): (delimiter: Option<string>)
    ensures delimiter.Some? ==> 2 <= |delimiter.value| && delimiter.value <= value && value[0] == '$'
  {
    if value == "" || value[0] != '$' then
      None
    else
      match Find(value[1..], '$')
      case None => None
      case Some(k) => if Tag(value[1..k + 1]) then Some(value[..k + 2]) else None
  }

  // Lexing, without regard to qualifiers

  datatype Lexed = Lexed(length: nat, quote: Option<string>)

  /** The next token of the text inside `quote`, or outside any, and the quote after it. */
  function Lex(text: string, quote: Option<string>): (token: Lexed)
    requires text != "" && (quote.Some? ==> quote.value != "")
    ensures 1 <= token.length <= |text| && (token.quote.Some? ==> token.quote.value != "")
  {
    match quote
    case Some(delimiter) =>
      if delimiter == "'" then
        if text[0] == '\\' && |text| > 1 then Lexed(2, quote)
        else if text[0] == '\'' then
          if "'" <= text[1..] then Lexed(2, quote) else Lexed(1, None)
        else Lexed(1, quote)
      else if delimiter <= text then Lexed(|delimiter|, None)
      else Lexed(1, quote)
    case None =>
      if text[0] == '\'' then Lexed(1, Some("'"))
      else
        match DollarQuoteDelimiter(text)
        case Some(delimiter) => Lexed(|delimiter|, Some(delimiter))
        case None => if text[0] == '"' then Lexed(1, Some("\"")) else Lexed(1, None)
  }

  /** The lexer, starting inside `quote`, comes to the offset outside any quote. */
  predicate Outside(text: string, quote: Option<string>, offset: nat)
    requires quote.Some? ==> quote.value != ""
    decreases |text|
  {
    if offset == 0 || text == "" then
      offset == 0 && quote.None?
    else
      var token := Lex(text, quote);
      token.length <= offset && Outside(text[token.length..], token.quote, offset - token.length)
  }

  // Scanning

  function Unquoted(name: string): string {
    name + "."
  }

  function Quoted(name: string): string {
    "\"" + name + "\"."
  }

  /** Temporary schemas are also reached through their alias. */
  function Qualifiers(schema: string): seq<string> {
    [Unquoted(schema), Quoted(schema)]
    + if "pg_temp_" <= schema then [Unquoted("pg_temp"), Quoted("pg_temp")] else []
  }

  function FirstMatch(qualifiers: seq<string>, text: string): (found: Option<string>)
    ensures found.Some? ==> found.value in qualifiers && found.value <= text
    ensures found.None? ==> forall k | 0 <= k < |qualifiers| :: !(qualifiers[k] <= text)
  {
    if qualifiers == [] then None
    else if qualifiers[0] <= text then Some(qualifiers[0])
    else FirstMatch(qualifiers[1..], text)
  }

  datatype Segment = Kept(text: string) | Dropped(text: string)

  /** The qualifier that the scan skips here, if it skips one. */
  function Skipped(boundary: bool, text: string, quote: Option<string>, schema: string): (q: Option<string>)
    ensures q.Some? ==> quote.None? && boundary && q.value <= text && q.value in Qualifiers(schema)
  {
    if quote.Some? || !boundary || "'" <= text || DollarQuoteDelimiter(text).Some? then
      None
    else
      FirstMatch(Qualifiers(schema), text)
  }

  /** The text cut into what is kept and what is dropped. */
  function Scan(boundary: bool, text: string, quote: Option<string>, schema: string): seq<Segment>
    requires quote.Some? ==> quote.value != ""
    decreases |text|
  {
    if text == "" then
      []
    else
      match Skipped(boundary, text, quote, schema)
      case Some(q) => [Dropped(q)] + Scan(BoundaryAt(text, |q|), text[|q|..], None, schema)
      case None =>
        var token := Lex(text, quote);
        [Kept(text[..token.length])]
        + Scan(BoundaryAt(text, token.length), text[token.length..], token.quote, schema)
  }

  function KeptText(segments: seq<Segment>): string {
    if segments == [] then ""
    else (if segments[0].Kept? then segments[0].text else "") + KeptText(segments[1..])
  }

  function DroppedText(segments: seq<Segment>): string {
    if segments == [] then ""
    else (if segments[0].Dropped? then segments[0].text else "") + DroppedText(segments[1..])
  }

  function Normalized(sql: string, schema: string): string {
    KeptText(Scan(true, sql, None, schema))
  }

  /** What is left to write when the scan has come to `index`. */
  function Remaining(sql: string, index: nat, quote: Option<string>, schema: string): string
    requires index <= |sql| && (quote.Some? ==> quote.value != "")
  {
    KeptText(Scan(BoundaryAt(sql, index), sql[index..], quote, schema))
  }

  lemma KeepsToken(
    sql: string, index: nat, quote: Option<string>, schema: string, token: Lexed, written: string)
    requires index < |sql| && (quote.Some? ==> quote.value != "")
    requires Skipped(BoundaryAt(sql, index), sql[index..], quote, schema).None?
    requires token == Lex(sql[index..], quote)
    ensures index + token.length <= |sql|
    ensures written + Remaining(sql, index, quote, schema) ==
            (written + sql[index..index + token.length])
            + Remaining(sql, index + token.length, token.quote, schema)
    ensures token.length == 1 ==> written + sql[index..index + token.length] == written + [sql[index]]
    ensures token.length == 2 ==> written + sql[index..index + token.length] ==
                                  (written + [sql[index]]) + [sql[index + 1]]
  {
    hide DollarQuoteDelimiter, Skipped, Lex, Continues;
    var text := sql[index..];
    assert text[token.length..] == sql[index + token.length..];
    assert text[..token.length] == sql[index..index + token.length];
  }

  lemma DropsQualifier(sql: string, index: nat, schema: string, q: string)
    requires index < |sql| && Skipped(BoundaryAt(sql, index), sql[index..], None, schema) == Some(q)
    ensures q != "" && index + |q| <= |sql|
    ensures Remaining(sql, index, None, schema) == Remaining(sql, index + |q|, None, schema)
  {
    assert sql[index..][|q|..] == sql[index + |q|..];
  }

  lemma ScanBegins(sql: string, schema: string)
    ensures "" + Remaining(sql, 0, None, schema) == Normalized(sql, schema)
    ensures var own := [schema + ".", "\"" + schema + "\"."];
            Qualifiers(schema) ==
            if "pg_temp_" <= schema then own + ["pg_temp.", "\"pg_temp\"."] else own
  {
    assert sql[0..] == sql;
    assert Unquoted("pg_temp") == "pg_temp." && Quoted("pg_temp") == "\"pg_temp\".";
  }

  lemma ScanEnds(sql: string, quote: Option<string>, schema: string)
    requires quote.Some? ==> quote.value != ""
    ensures Remaining(sql, |sql|, quote, schema) == ""
  {
  }

  /** Copies the next piece of quoted text and says whether the quote goes on. */
  method CopyQuoted(sql: string, index: nat, delimiter: string, written: string, ghost schema: string)
    returns (normalized: string, next: nat, quote: Option<string>)
    requires index < |sql| && delimiter != ""
    ensures index < next <= |sql| && (quote.Some? ==> quote == Some(delimiter))
    ensures normalized + Remaining(sql, next, quote, schema) ==
            written + Remaining(sql, index, Some(delimiter), schema)
  {
    hide Remaining, DollarQuoteDelimiter;
    normalized, next, quote := written, index, Some(delimiter);
    KeepsToken(sql, index, quote, schema, Lex(sql[index..], quote), written);
    if delimiter == "'" {
      var character := sql[next];
      normalized := normalized + [character];
      next := next + 1;
      if character == '\\' && next < |sql| {
        normalized := normalized + [sql[next]];
        next := next + 1;
      } else if character == '\'' {
        if "'" <= sql[next..] {
          normalized := normalized + "'";
          next := next + 1;
        } else {
          quote := None;
        }
      }
      return;
    }
    if delimiter <= sql[next..] {
      normalized := normalized + delimiter;
      next := next + |delimiter|;
      quote := None;
    } else {
      normalized := normalized + [sql[next]];
      next := next + 1;
    }
  }

  method NormalizeSqlQualifiers(sql: string, schema: string) returns (normalized: string)
    ensures normalized == Normalized(sql, schema)
  {
    hide Remaining, Scan, Normalized, DollarQuoteDelimiter, FirstMatch, Continues, Qualifiers, KeptText;
    var qualifiers := [schema + ".", "\"" + schema + "\"."];
    if "pg_temp_" <= schema {
      qualifiers := qualifiers + ["pg_temp.", "\"pg_temp\"."];
    }
    ScanBegins(sql, schema);
    normalized := "";
    var index := 0;
    var quote: Option<string> := None;
    while index < |sql|
      invariant 0 <= index <= |sql|
      invariant quote.Some? ==> quote.value != ""
      invariant normalized + Remaining(sql, index, quote, schema) == Normalized(sql, schema)
    {
      if quote.Some? {
        normalized, index, quote := CopyQuoted(sql, index, quote.value, normalized, schema);
        continue;
      }
      var rest := sql[index..];
      if "'" <= rest {
        KeepsToken(sql, index, None, schema, Lex(rest, None), normalized);
        normalized := normalized + "'";
        index := index + 1;
        quote := Some("'");
        continue;
      }
      var delimiter := DollarQuoteDelimiter(rest);
      if delimiter.Some? {
        KeepsToken(sql, index, None, schema, Lex(rest, None), normalized);
        normalized := normalized + delimiter.value;
        index := index + |delimiter.value|;
        quote := delimiter;
        continue;
      }
      var tokenBoundary := index == 0 || !Continues(sql[index - 1]);
      var qualifier := if tokenBoundary then FirstMatch(qualifiers, rest) else None;
      if qualifier.Some? {
        DropsQualifier(sql, index, schema, qualifier.value);
        index := index + |qualifier.value|;
        continue;
      }
      KeepsToken(sql, index, None, schema, Lex(rest, None), normalized);
      if "\"" <= rest {
        normalized := normalized + "\"";
        index := index + 1;
        quote := Some("\"");
        continue;
      }
      normalized := normalized + [sql[index]];
      index := index + 1;
    }
    ScanEnds(sql, quote, schema);
  }

  // Rows of a catalog fingerprint

  /** One JSON value of a row; only strings are told apart. */
  datatype Value = Text(text: string) | Other(json: string)

  /** A row is a JSON array, or something that is left alone. */
  datatype Row = Values(values: seq<Value>) | Opaque(json: string)

  function NormalizedValue(value: Value, schema: string): Value {
    match value
    case Text(text) => Text(Normalized(text, schema))
    case Other(_) => value
  }

  /** The values after the fields have been visited in turn. */
  function NormalizedValues(values: seq<Value>, fields: seq<nat>, schema: string): (r: seq<Value>)
    ensures |r| == |values|
  {
    if fields == [] then
      values
    else
      var n := |fields| - 1;
      var r := NormalizedValues(values, fields[..n], schema);
      if fields[n] < |r| then r[fields[n] := NormalizedValue(r[fields[n]], schema)] else r
  }

  function NormalizedRow(row: Row, fields: seq<nat>, schema: string): Row {
    match row
    case Values(values) => Values(NormalizedValues(values, fields, schema))
    case Opaque(_) => row
  }

  predicate Distinct(fields: seq<nat>) {
    forall m, n | 0 <= m < n < |fields| :: fields[m] != fields[n]
  }

  /** When no field is listed twice, each listed field is normalized once and no other changes. */
  lemma {:induction false} FieldsAreNormalizedOnce(values: seq<Value>, fields: seq<nat>, schema: string, k: nat)
    requires Distinct(fields) && k < |values|
    ensures NormalizedValues(values, fields, schema)[k] ==
            if k in fields then NormalizedValue(values[k], schema) else values[k]
  {
    if fields == [] {
    } else {
      var n := |fields| - 1;
      FieldsAreNormalizedOnce(values, fields[..n], schema, k);
      assert fields == fields[..n] + [fields[n]];
    }
  }

  method NormalizeValues(row: seq<Value>, fields: seq<nat>, schema: string) returns (values: seq<Value>)
    ensures values == NormalizedValues(row, fields, schema)
  {
    values := row;
    for f := 0 to |fields|
      invariant values == NormalizedValues(row, fields[..f], schema)
    {
      assert fields[..f + 1][..f] == fields[..f];
      var field := fields[f];
      if field < |values| && values[field].Text? {
        var normalized := NormalizeSqlQualifiers(values[field].text, schema);
        values := values[field := Text(normalized)];
      }
    }
    assert fields[..|fields|] == fields;
  }

  method NormalizeSqlFields(rows: array<Row>, fields: seq<nat>, schema: string)
    modifies rows
    ensures forall i | 0 <= i < rows.Length :: rows[i] == NormalizedRow(old(rows[i]), fields, schema)
  {
    for i := 0 to rows.Length
      invariant forall k | 0 <= k < i :: rows[k] == NormalizedRow(old(rows[k]), fields, schema)
      invariant forall k | i <= k < rows.Length :: rows[k] == old(rows[k])
    {
      if rows[i].Opaque? {
        continue;
      }
      var values := NormalizeValues(rows[i].values, fields, schema);
      rows[i] := Values(values);
    }
  }
}
