/** The parser of INSERT statements (src/sql/parser.cpp) against a printer of such statements. */
module InsertParser {
  import opened Words

  datatype InsertStmt = InsertStmt(tableName: string, columns: seq<string>, rows: seq<seq<string>>)

  datatype ParseResult = Ok(stmt: InsertStmt) | Error(message: string)

  // ---- characters and words ----

  predicate IsSpace(c: char) {
    c == ' ' || c == '\t' || c == '\r' || c == '\n'
  }

  predicate IsSeparator(c: char) {
    IsSpace(c) || c == ','
  }

  predicate IsQuote(c: char) {
    c == '\'' || c == '"'
  }

  function Upper(c: char): char {
    if 'a' <= c <= 'z' then c - 32 as char else c
  }

  function ToUpper(s: string): (r: string)
    ensures |r| == |s|
  {
    seq(|s|, i requires 0 <= i < |s| => Upper(s[i]))
  }

  /** Where the word first starts in s, whatever the case of its letters. */
  function FindKeyword(s: string, word: string): (at: Option<nat>)
    ensures at.Some? ==> at.value + |word| <= |s| && ToUpper(s[at.value..at.value + |word|]) == word
    decreases |s|
  {
    if |s| < |word| then None
    else if ToUpper(s[..|word|]) == word then Some(0)
    else if s == "" then None
    else
      match FindKeyword(s[1..], word)
      case None => None
      case Some(k) => assert s[1..][k..k + |word|] == s[k + 1..k + 1 + |word|]; Some(k + 1)
  }

  function TrimLeft(s: string): string {
    if s != "" && IsSpace(s[0]) then TrimLeft(s[1..]) else s
  }

  function TrimRight(s: string): string {
    if s != "" && IsSpace(s[|s| - 1]) then TrimRight(s[..|s| - 1]) else s
  }

  function Trim(s: string): string {
    TrimRight(TrimLeft(s))
  }

  // ---- what is read from the rest of a statement, and the rest after it ----

  function Skip(s: string): (r: string)
    ensures |r| <= |s| && (r != "" ==> !IsSeparator(r[0]))
    ensures s != "" && IsSeparator(s[0]) ==> |r| < |s|
  {
    if s != "" && IsSeparator(s[0]) then Skip(s[1..]) else s
  }

  /** The text before the first of two characters. */
  function Before(s: string, a: char, b: char): (r: (string, string))
    ensures s == r.0 + r.1 && a !in r.0 && b !in r.0
    ensures r.1 == "" || r.1[0] == a || r.1[0] == b
  {
    if s == "" || s[0] == a || s[0] == b then ("", s)
    else
      var r := Before(s[1..], a, b);
      ([s[0]] + r.0, r.1)
  }

  /** The value behind an opening quote, two quotes standing for one. */
  function Unquote(s: string, quote: char): (r: (string, string))
    ensures |r.1| <= |s|
    decreases |s|
  {
    if s == "" then ("", "")
    else if s[0] != quote then
      var r := Unquote(s[1..], quote);
      ([s[0]] + r.0, r.1)
    else if |s| > 1 && s[1] == quote then
      var r := Unquote(s[2..], quote);
      ([quote] + r.0, r.1)
    else ("", s[1..])
  }

  function Columns(s: string): (r: (seq<string>, string))
    ensures |r.1| <= |s|
    decreases |s|
  {
    if s == "" || s[0] == ')' then ([], s)
    else
      var item := Before(Skip(s), ',', ')');
      var r := Columns(Skip(item.1));
      ([Trim(item.0)] + r.0, r.1)
  }

  /** One value of a row: quoted, or up to the next comma or parenthesis. */
  function Item(s: string): (r: (string, string))
    ensures |r.1| <= |s| && (s != "" && s[0] != ')' && s[0] != ',' ==> |r.1| < |s|)
  {
    if s != "" && IsQuote(s[0]) then Unquote(s[1..], s[0])
    else
      var r := Before(s, ',', ')');
      (Trim(r.0), r.1)
  }

  function Row(s: string): (r: (seq<string>, string))
    ensures |r.1| <= |s|
    decreases |s|
  {
    if s == "" || s[0] == ')' then ([], s)
    else
      var item := Item(Skip(s));
      var r := Row(Skip(item.1));
      ([item.0] + r.0, r.1)
  }

  /** The rest behind a closing parenthesis, if there is one. */
  function Closed(s: string): string {
    if s == "" then "" else s[1..]
  }

  function Rows(s: string): seq<seq<string>>
    decreases |s|
  {
    if s == "" || s[0] != '(' then []
    else
      var row := Row(s[1..]);
      [row.0] + Rows(Skip(Closed(row.1)))
  }

  function AfterTable(s: string): (seq<string>, string) {
    if s != "" && s[0] == '(' then
      var r := Columns(s[1..]);
      (r.0, Closed(r.1))
    else ([], s)
  }

  function Parse(sql: string): ParseResult {
    match FindKeyword(sql, "INSERT INTO")
    case None => Error("Expected INSERT INTO")
    case Some(at) =>
      var table := Before(Skip(sql[at + 11..]), '(', ' ');
      var columns := AfterTable(Skip(table.1));
      match FindKeyword(columns.1, "VALUES")
      case None => Error("Expected VALUES")
      case Some(v) =>
        var rows := Rows(Skip(columns.1[v + 6..]));
        if rows == [] then Error("No values provided") else Ok(InsertStmt(table.0, columns.0, rows))
  }

  // ---- the parser ----

  method SkipWhitespace(sql: string, start: nat) returns (pos: nat)
    requires start <= |sql|
    ensures start <= pos <= |sql| && sql[pos..] == Skip(sql[start..])
  {
    pos := start;
    while pos < |sql| && IsSeparator(sql[pos])
      invariant start <= pos <= |sql| && Skip(sql[pos..]) == Skip(sql[start..])
    {
      assert sql[pos..][1..] == sql[pos + 1..];
      pos := pos + 1;
    }
  }

  method ReadBefore(sql: string, start: nat, a: char, b: char) returns (pos: nat)
    requires start <= |sql|
    ensures start <= pos <= |sql|
    ensures sql[start..pos] == Before(sql[start..], a, b).0 && sql[pos..] == Before(sql[start..], a, b).1
  {
    hide Before;
    pos := start;
    while pos < |sql| && sql[pos] != a && sql[pos] != b
      invariant start <= pos <= |sql|
      invariant Before(sql[start..], a, b).0 == sql[start..pos] + Before(sql[pos..], a, b).0
      invariant Before(sql[start..], a, b).1 == Before(sql[pos..], a, b).1
    {
      BeforeNext(sql[pos..], a, b);
      assert sql[pos..][1..] == sql[pos + 1..];
      assert sql[start..pos + 1] == sql[start..pos] + [sql[pos]];
      pos := pos + 1;
    }
    BeforeNone(sql[pos..], a, b);
  }

  lemma BeforeNext(s: string, a: char, b: char)
    requires s != "" && s[0] != a && s[0] != b
    ensures Before(s, a, b).0 == [s[0]] + Before(s[1..], a, b).0 && Before(s, a, b).1 == Before(s[1..], a, b).1
  {
  }

  lemma BeforeNone(s: string, a: char, b: char)
    requires s == "" || s[0] == a || s[0] == b
    ensures Before(s, a, b).0 == "" && Before(s, a, b).1 == s
  {
  }

  /** Called where a quote stands. */
  method ExtractQuoted(sql: string, start: nat) returns (result: string, pos: nat)
    requires start < |sql| && IsQuote(sql[start])
    ensures start < pos <= |sql|
    ensures result == Unquote(sql[start + 1..], sql[start]).0 && sql[pos..] == Unquote(sql[start + 1..], sql[start]).1
  {
    var quote := sql[start];
    pos, result := start + 1, "";
    while pos < |sql|
      invariant start < pos <= |sql|
      invariant Unquote(sql[start + 1..], quote).0 == result + Unquote(sql[pos..], quote).0
      invariant Unquote(sql[start + 1..], quote).1 == Unquote(sql[pos..], quote).1
    {
      assert sql[pos..][1..] == sql[pos + 1..];
      if sql[pos] == quote {
        if pos + 1 < |sql| && sql[pos + 1] == quote {
          assert sql[pos..][2..] == sql[pos + 2..];
          result := result + [quote];
          pos := pos + 2;
          continue;
        }
        pos := pos + 1;
        return;
      }
      result := result + [sql[pos]];
      pos := pos + 1;
    }
  }

  method ReadColumns(sql: string, start: nat) returns (columns: seq<string>, pos: nat)
    requires start <= |sql|
    ensures start <= pos <= |sql|
    ensures columns == Columns(sql[start..]).0 && sql[pos..] == Columns(sql[start..]).1
  {
    pos, columns := start, [];
    while pos < |sql| && sql[pos] != ')'
      invariant start <= pos <= |sql|
      invariant Columns(sql[start..]).0 == columns + Columns(sql[pos..]).0
      invariant Columns(sql[start..]).1 == Columns(sql[pos..]).1
      decreases |sql| - pos
    {
      hide Before, Skip, Trim;
      ghost var from := pos;
      ColumnsStep(sql[from..]);
      pos := SkipWhitespace(sql, pos);
      var colStart := pos;
      pos := ReadBefore(sql, pos, ',', ')');
      columns := columns + [Trim(sql[colStart..pos])];
      pos := SkipWhitespace(sql, pos);
      assert |sql[pos..]| < |sql[from..]|;
    }
  }

  lemma ColumnsStep(s: string)
    requires s != "" && s[0] != ')'
    ensures var item := Before(Skip(s), ',', ')');
      && Columns(s).0 == [Trim(item.0)] + Columns(Skip(item.1)).0
      && Columns(s).1 == Columns(Skip(item.1)).1
      && |Skip(item.1)| < |s|
  {
  }

  /** At the end of the text the source reads the terminating zero, which is no quote. */
  method ReadItem(sql: string, start: nat) returns (value: string, pos: nat)
    requires start <= |sql|
    ensures start <= pos <= |sql|
    ensures value == Item(sql[start..]).0 && sql[pos..] == Item(sql[start..]).1
  {
    hide Before, Trim, Unquote;
    pos := start;
    if pos < |sql| && IsQuote(sql[pos]) {
      assert sql[pos..][1..] == sql[pos + 1..];
      value, pos := ExtractQuoted(sql, pos);
    } else {
      pos := ReadBefore(sql, pos, ',', ')');
      value := Trim(sql[start..pos]);
    }
  }

  method ReadRow(sql: string, start: nat) returns (values: seq<string>, pos: nat)
    requires start <= |sql|
    ensures start <= pos <= |sql|
    ensures values == Row(sql[start..]).0 && sql[pos..] == Row(sql[start..]).1
  {
    hide Skip, Item, Row;
    pos, values := start, [];
    while pos < |sql| && sql[pos] != ')'
      invariant start <= pos <= |sql|
      invariant Row(sql[start..]).0 == values + Row(sql[pos..]).0
      invariant Row(sql[start..]).1 == Row(sql[pos..]).1
      decreases |sql| - pos
    {
      ghost var from := pos;
      RowStep(sql[from..]);
      pos := SkipWhitespace(sql, pos);
      var value;
      value, pos := ReadItem(sql, pos);
      values := values + [value];
      pos := SkipWhitespace(sql, pos);
      assert |sql[pos..]| < |sql[from..]|;
    }
    RowStop(sql[pos..]);
  }

  lemma RowStop(s: string)
    requires s == "" || s[0] == ')'
    ensures Row(s).0 == [] && Row(s).1 == s
  {
  }

  lemma RowStep(s: string)
    requires s != "" && s[0] != ')'
    ensures var item := Item(Skip(s));
      && Row(s).0 == [item.0] + Row(Skip(item.1)).0
      && Row(s).1 == Row(Skip(item.1)).1
      && |Skip(item.1)| < |s|
  {
  }

  method ReadRows(sql: string, start: nat) returns (rows: seq<seq<string>>)
    requires start <= |sql|
    ensures rows == Rows(sql[start..])
  {
    hide Row, Rows, Skip;
    var pos := start;
    rows := [];
    while pos < |sql| && sql[pos] == '('
      invariant start <= pos <= |sql| && Rows(sql[start..]) == rows + Rows(sql[pos..])
      decreases |sql| - pos
    {
      RowsStep(sql[pos..]);
      assert sql[pos..][1..] == sql[pos + 1..];
      var row;
      row, pos := ReadRow(sql, pos + 1);
      ghost var rest := sql[pos..];
      if pos < |sql| {
        pos := pos + 1;
      }
      assert sql[pos..] == Closed(rest);
      rows := rows + [row];
      pos := SkipWhitespace(sql, pos);
    }
    RowsStop(sql[pos..]);
  }

  lemma RowsStop(s: string)
    requires s == "" || s[0] != '('
    ensures Rows(s) == []
  {
  }

  lemma RowsStep(s: string)
    requires s != "" && s[0] == '('
    ensures var row := Row(s[1..]);
      Rows(s) == [row.0] + Rows(Skip(Closed(row.1)))
  {
  }

  /** The column list, if there is one. */
  method ReadColumnList(sql: string, start: nat) returns (columns: seq<string>, pos: nat)
    requires start <= |sql|
    ensures start <= pos <= |sql|
    ensures columns == AfterTable(sql[start..]).0 && sql[pos..] == AfterTable(sql[start..]).1
  {
    hide Columns;
    columns, pos := [], start;
    if pos < |sql| && sql[pos] == '(' {
      assert sql[pos..][1..] == sql[pos + 1..];
      columns, pos := ReadColumns(sql, pos + 1);
      ghost var rest := sql[pos..];
      if pos < |sql| {
        pos := pos + 1;
      }
      assert sql[pos..] == Closed(rest);
    }
  }

  /** The cursor moves forward in every turn of every loop. */
  method ParseInsert(sql: string) returns (r: ParseResult)
    ensures r == Parse(sql)
  {
    hide FindKeyword, Skip, Before, AfterTable, Rows;
    var found := FindKeyword(sql, "INSERT INTO");
    if found.None? { return Error("Expected INSERT INTO"); }
    FoundInside(sql, "INSERT INTO");
    var pos := found.value + 11;
    pos := SkipWhitespace(sql, pos);
    var tableStart := pos;
    pos := ReadBefore(sql, pos, '(', ' ');
    var tableName := sql[tableStart..pos];
    pos := SkipWhitespace(sql, pos);
    var columns;
    columns, pos := ReadColumnList(sql, pos);
    found := FindKeyword(sql[pos..], "VALUES");
    if found.None? { return Error("Expected VALUES"); }
    FoundInside(sql[pos..], "VALUES");
    assert sql[pos..][found.value + 6..] == sql[pos + found.value + 6..];
    pos := pos + found.value + 6;
    pos := SkipWhitespace(sql, pos);
    var rows := ReadRows(sql, pos);
    if rows == [] { return Error("No values provided"); }
    return Ok(InsertStmt(tableName, columns, rows));
  }

  /** The word stands at this place, whatever the case of its letters. */
  predicate StandsAt(s: string, word: string, k: nat) {
    k + |word| <= |s| && ToUpper(s[k..k + |word|]) == word
  }

  lemma StandsLater(s: string, word: string, k: nat)
    requires s != ""
    ensures StandsAt(s, word, k + 1) <==> StandsAt(s[1..], word, k)
  {
    hide ToUpper;
    if k + 1 + |word| <= |s| {
      assert s[1..][k..k + |word|] == s[k + 1..k + 1 + |word|];
    }
  }

  lemma StandsFirst(s: string, word: string)
    ensures StandsAt(s, word, 0) <==> |word| <= |s| && ToUpper(s[..|word|]) == word
  {
    hide ToUpper;
    if |word| <= |s| {
      assert s[0..0 + |word|] == s[..|word|];
    }
  }

  lemma NoRoom(s: string, word: string)
    requires (s == "" || |s| < |word|) && !StandsAt(s, word, 0)
    ensures FindKeyword(s, word).None? && forall j: nat :: !StandsAt(s, word, j)
  {
  }

  /** The keyword is found where it first stands, and missed only if it stands nowhere. */
  lemma {:induction false} FindFirst(s: string, word: string)
    ensures match FindKeyword(s, word)
      case Some(k) => StandsAt(s, word, k) && forall j: nat :: j < k ==> !StandsAt(s, word, j)
      case None => forall j: nat :: !StandsAt(s, word, j)
    decreases |s|
  {
    hide ToUpper, StandsAt;
    StandsFirst(s, word);
    if !StandsAt(s, word, 0) {
      if s == "" || |s| < |word| {
        NoRoom(s, word);
      } else {
        FindFirst(s[1..], word);
        forall j: nat
          ensures StandsAt(s, word, j) <==> j > 0 && StandsAt(s[1..], word, j - 1)
        {
          if j > 0 { StandsLater(s, word, j - 1); }
        }
      }
    }
  }

  /** The first error is given exactly for texts that hold the keyword nowhere. */
  lemma NoInsertIff(sql: string)
    ensures Parse(sql) == Error("Expected INSERT INTO") <==> forall k: nat :: !StandsAt(sql, "INSERT INTO", k)
  {
    hide FindKeyword, StandsAt, Skip, Before, AfterTable, Rows;
    FindFirst(sql, "INSERT INTO");
    assert "Expected VALUES"[9] != "Expected INSERT INTO"[9] && "No values provided"[0] != "Expected INSERT INTO"[0];
  }

  lemma FoundInside(s: string, word: string)
    ensures FindKeyword(s, word).Some? ==> FindKeyword(s, word).value + |word| <= |s|
  {
  }
}
