/** Printing an INSERT statement, every value in quotes or as it is, and reading it back. */
module InsertPrinter {
  import opened Words
  import opened InsertParser

  /** The text with its quotes doubled. */
  function Doubled(v: string, quote: char): string {
    if v == "" then ""
    else (if v[0] == quote then [quote, quote] else [v[0]]) + Doubled(v[1..], quote)
  }

  function Quoted(v: string, quote: char): string {
    [quote] + Doubled(v, quote) + [quote]
  }

  /** How a value is written: between quotes, or as it is. */
  datatype Style = InQuotes(quote: char) | Bare

  datatype Written = Written(value: string, style: Style)

  function Shown(w: Written): string {
    if w.style.Bare? then w.value else Quoted(w.value, w.style.quote)
  }

  function ShownAll(row: seq<Written>): (r: seq<string>)
    ensures |r| == |row|
  {
    if row == [] then [] else [Shown(row[0])] + ShownAll(row[1..])
  }

  function ValuesOf(row: seq<Written>): (r: seq<string>)
    ensures |r| == |row|
  {
    if row == [] then [] else [row[0].value] + ValuesOf(row[1..])
  }

  function Join(parts: seq<string>): string {
    if parts == [] then "" else if |parts| == 1 then parts[0] else parts[0] + ", " + Join(parts[1..])
  }

  function PrintRow(row: seq<Written>): string {
    "(" + Join(ShownAll(row)) + ")"
  }

  function PrintRows(rows: seq<seq<Written>>): string {
    if rows == [] then ""
    else if |rows| == 1 then PrintRow(rows[0])
    else PrintRow(rows[0]) + ", " + PrintRows(rows[1..])
  }

  function PrintColumns(columns: seq<string>): string {
    if columns == [] then "" else "(" + Join(columns) + ") "
  }

  /** A statement with the spelling of its two keywords and the style of every value. */
  datatype Layout = Layout(insert: string, values: string, tableName: string, columns: seq<string>, rows: seq<seq<Written>>)

  function RowValues(rows: seq<seq<Written>>): (r: seq<seq<string>>)
    ensures |r| == |rows|
  {
    if rows == [] then [] else [ValuesOf(rows[0])] + RowValues(rows[1..])
  }

  function Stated(l: Layout): InsertStmt {
    InsertStmt(l.tableName, l.columns, RowValues(l.rows))
  }

  function Print(l: Layout): string {
    l.insert + " " + l.tableName + " " + PrintColumns(l.columns) + l.values + " " + PrintRows(l.rows)
  }

  /** What can be written without quotes. */
  predicate Plain(v: string) {
    Clean(v) && v != "" && !IsQuote(v[0])
  }

  /** The quotes are single or double ones. */
  predicate Legal(row: seq<Written>) {
    forall w :: w in row && w.style.InQuotes? ==> IsQuote(w.style.quote)
  }

  predicate BaresPlain(row: seq<Written>) {
    forall w :: w in row && w.style.Bare? ==> Plain(w.value)
  }

  // ---- values and rows ----

  lemma {:induction false} Unquoted(v: string, quote: char, rest: string)
    requires rest == "" || rest[0] != quote
    ensures Unquote(Doubled(v, quote) + [quote] + rest, quote).0 == v
    ensures Unquote(Doubled(v, quote) + [quote] + rest, quote).1 == rest
    decreases |v|
  {
    var s := Doubled(v, quote) + [quote] + rest;
    if v == "" {
      assert s == [quote] + rest;
    } else {
      Unquoted(v[1..], quote, rest);
      var t := Doubled(v[1..], quote) + [quote] + rest;
      if v[0] == quote {
        assert s == [quote, quote] + t;
        assert s[2..] == t;
      } else {
        assert s == [v[0]] + t;
        assert s[1..] == t;
      }
    }
  }

  /** A value in quotes or a plain one is read back in front of a comma or a parenthesis. */
  lemma OneValue(w: Written, more: string)
    requires if w.style.Bare? then Plain(w.value) else IsQuote(w.style.quote)
    requires more != "" && (more[0] == ',' || more[0] == ')')
    ensures Item(Shown(w) + more) == (w.value, more) && Skip(Shown(w) + more) == Shown(w) + more
    ensures Row(Shown(w) + more).0 == [w.value] + Row(Skip(more)).0
    ensures Row(Shown(w) + more).1 == Row(Skip(more)).1
  {
    hide Unquote, Doubled, Before, Trim, Row;
    var s := Shown(w) + more;
    if w.style.Bare? {
      assert s[0] == w.value[0];
      BeforeStop(w.value, ',', ')', more);
      TrimmedAlready(w.value);
    } else {
      var quote := w.style.quote;
      assert s[0] == quote;
      assert s[1..] == Doubled(w.value, quote) + [quote] + more;
      Unquoted(w.value, quote, more);
    }
    RowStep(s);
  }

  /** Blanks and commas in front of a value and blanks behind it change nothing. */
  lemma PaddedValue(before: string, w: Written, after: string, more: string)
    requires if w.style.Bare? then Plain(w.value) else w.style.quote == '\'' || w.style.quote == '"'
    requires forall c :: c in before ==> c in {' ', '\t', '\r', '\n', ','}
    requires forall c :: c in after ==> c in {' ', '\t', '\r', '\n'}
    requires more != "" && (more[0] == ',' || more[0] == ')')
    ensures Row(before + (Shown(w) + (after + more))).0 == [w.value] + Row(Skip(more)).0
    ensures Row(before + (Shown(w) + (after + more))).1 == Row(Skip(more)).1
  {
    hide Unquote, Doubled, Before, Trim, Row, Skip;
    var s := Shown(w) + (after + more);
    SkipAll(after, more);
    assert s[0] == Shown(w)[0] && s != "";
    SkipStays(s);
    SkipAll(before, s);
    if w.style.Bare? {
      assert s == (w.value + after) + more;
      BeforeStop(w.value + after, ',', ')', more);
      TrimBehind(w.value, after);
      SkipStill(more);
    } else {
      var quote := w.style.quote;
      assert s[1..] == Doubled(w.value, quote) + [quote] + (after + more);
      Unquoted(w.value, quote, after + more);
    }
    assert s[0] != ')' by {
      assert w.style.Bare? ==> w.value[0] in w.value && s[0] == w.value[0];
    }
    assert before != "" ==> before[0] in before;
    assert (before + s)[0] == if before == "" then s[0] else before[0];
    RowStep(before + s);
  }

  lemma SkipStays(s: string)
    requires s != "" && !IsSeparator(s[0])
    ensures Skip(s) == s
  {
  }

  lemma SkipStill(more: string)
    ensures Skip(more) == Skip("" + more)
  {
    assert "" + more == more;
  }

  lemma {:induction false} SkipAll(pad: string, s: string)
    requires forall c :: c in pad ==> IsSeparator(c)
    ensures Skip(pad + s) == Skip(s)
    decreases |pad|
  {
    if pad == "" {
      assert pad + s == s;
    } else {
      assert (pad + s)[1..] == pad[1..] + s;
      SkipAll(pad[1..], s);
    }
  }

  lemma {:induction false} TrimRightBehind(v: string, pad: string)
    requires v != "" && !IsSpace(v[|v| - 1]) && forall c :: c in pad ==> IsSpace(c)
    ensures TrimRight(v + pad) == v
    decreases |pad|
  {
    if pad == "" {
      assert v + pad == v;
    } else {
      var n := |pad| - 1;
      assert (v + pad)[..|v + pad| - 1] == v + pad[..n];
      TrimRightBehind(v, pad[..n]);
    }
  }

  lemma TrimBehind(v: string, pad: string)
    requires Plain(v) && forall c :: c in pad ==> IsSpace(c)
    ensures Trim(v + pad) == v
  {
    assert (v + pad)[0] == v[0];
    TrimRightBehind(v, pad);
  }

  /** The text of a row from some value on. */
  function RowText(row: seq<Written>, rest: string): string {
    Join(ShownAll(row)) + ")" + rest
  }

  /** What follows its first value. */
  function BehindFirst(row: seq<Written>, rest: string): (more: string)
    requires row != []
    ensures more != "" && (more[0] == ',' || more[0] == ')')
  {
    if |row| == 1 then ")" + rest else ", " + RowText(row[1..], rest)
  }

  lemma ValuesNext(row: seq<Written>, rest: string)
    requires row != []
    ensures RowText(row, rest) == Shown(row[0]) + BehindFirst(row, rest)
  {
    hide Shown;
    if |row| == 1 {
      assert ShownAll(row[1..]) == [];
    } else {
      assert ShownAll(row)[1..] == ShownAll(row[1..]);
    }
  }

  lemma NoValues(rest: string)
    ensures RowText([], rest) == ")" + rest && ShownAll([]) == []
  {
  }

  /** Behind the first value the parser goes on with the next. */
  lemma SkipToNext(row: seq<Written>, rest: string)
    requires row != []
    ensures Skip(BehindFirst(row, rest)) == if |row| == 1 then ")" + rest else Skip(RowText(row[1..], rest))
  {
    hide RowText;
    if |row| > 1 {
      SkipSeparator(RowText(row[1..], rest));
    }
  }

  lemma GoodStart(row: seq<Written>, rest: string)
    requires Legal(row) && BaresPlain(row)
    ensures Skip(RowText(row, rest)) == RowText(row, rest)
  {
    hide Doubled;
    if row == [] {
      NoValues(rest);
    } else {
      ValuesNext(row, rest);
      assert row[0] in row;
      assert RowText(row, rest)[0] == Shown(row[0])[0];
    }
  }

  /** Any mixture of quoted and plain values is read back. */
  lemma {:induction false} RowBack(row: seq<Written>, rest: string)
    requires Legal(row) && BaresPlain(row)
    ensures Row(RowText(row, rest)).0 == ValuesOf(row)
    ensures Row(RowText(row, rest)).1 == ")" + rest
    decreases |row|
  {
    hide Row, Shown, Skip, RowText, Plain;
    if row == [] {
      NoValues(rest);
      RowStop(")" + rest);
    } else {
      ValuesNext(row, rest);
      assert row[0] in row;
      OneValue(row[0], BehindFirst(row, rest));
      SkipToNext(row, rest);
      if |row| == 1 {
        RowStop(")" + rest);
      } else {
        RowBack(row[1..], rest);
        GoodStart(row[1..], rest);
      }
    }
  }

  lemma SkipSeparator(s: string)
    ensures Skip(", " + s) == Skip(s)
  {
  }

  predicate AllGood(rows: seq<seq<Written>>) {
    forall row :: row in rows ==> Legal(row) && BaresPlain(row)
  }

  lemma {:induction false} RowsBack(rows: seq<seq<Written>>)
    requires AllGood(rows)
    ensures Rows(PrintRows(rows)) == RowValues(rows)
    decreases |rows|
  {
    hide Row, Join, ShownAll, Legal, BaresPlain;
    var s := PrintRows(rows);
    if rows != [] {
      var more := if |rows| == 1 then "" else ", " + PrintRows(rows[1..]);
      assert s == PrintRow(rows[0]) + more;
      assert s[1..] == RowText(rows[0], more);
      assert rows[0] in rows;
      RowBack(rows[0], more);
      RowsStep(s);
      assert Closed(")" + more) == more;
      RowsBack(rows[1..]);
      if |rows| > 1 {
        SkipSeparator(PrintRows(rows[1..]));
        assert PrintRows(rows[1..])[0] == '(';
      }
    }
  }

  // ---- names ----

  /** What the parser can return as a table name. */
  predicate TableOk(t: string) {
    '(' !in t && ' ' !in t && (t != "" ==> !IsSeparator(t[0]))
  }

  /** What it can return as a column name. */
  predicate Clean(c: string) {
    ',' !in c && ')' !in c && (c != "" ==> !IsSpace(c[0]) && !IsSpace(c[|c| - 1]))
  }

  lemma {:induction false} BeforeStop(t: string, a: char, b: char, rest: string)
    requires a !in t && b !in t && rest != "" && (rest[0] == a || rest[0] == b)
    ensures Before(t + rest, a, b).0 == t && Before(t + rest, a, b).1 == rest
    decreases |t|
  {
    if t == "" {
      assert t + rest == rest;
    } else {
      assert (t + rest)[1..] == t[1..] + rest;
      BeforeStop(t[1..], a, b, rest);
    }
  }

  lemma TrimmedAlready(c: string)
    requires Clean(c)
    ensures Trim(c) == c
  {
  }

  lemma {:induction false} TrimLeftPart(s: string)
    ensures forall c :: c in TrimLeft(s) ==> c in s
    ensures TrimLeft(s) != "" ==> !IsSpace(TrimLeft(s)[0])
    decreases |s|
  {
    if s != "" && IsSpace(s[0]) {
      TrimLeftPart(s[1..]);
    }
  }

  lemma {:induction false} TrimRightPart(s: string)
    ensures TrimRight(s) <= s
    ensures TrimRight(s) != "" ==> !IsSpace(TrimRight(s)[|TrimRight(s)| - 1])
    decreases |s|
  {
    if s != "" && IsSpace(s[|s| - 1]) {
      TrimRightPart(s[..|s| - 1]);
    }
  }

  lemma TrimClean(s: string)
    requires ',' !in s && ')' !in s
    ensures Clean(Trim(s))
  {
    TrimLeftPart(s);
    TrimRightPart(TrimLeft(s));
  }

  lemma {:induction false} ColumnsClean(s: string)
    ensures forall c :: c in Columns(s).0 ==> Clean(c)
    decreases |s|
  {
    if s != "" && s[0] != ')' {
      hide Before, Skip, Trim, Clean;
      ColumnsStep(s);
      var item := Before(Skip(s), ',', ')');
      TrimClean(item.0);
      ColumnsClean(Skip(item.1));
    }
  }

  /** Whatever the parser accepts has names of that kind and at least one row. */
  lemma ParsedShape(sql: string)
    requires Parse(sql).Ok?
    ensures var s := Parse(sql).stmt;
      TableOk(s.tableName) && (forall c :: c in s.columns ==> Clean(c)) && s.rows != []
  {
    hide FindKeyword, Skip, Rows, Columns, Before;
    var at := FindKeyword(sql, "INSERT INTO").value;
    var text := Skip(sql[at + 11..]);
    var table := Before(text, '(', ' ');
    var rest := Skip(table.1);
    if rest != "" && rest[0] == '(' {
      ColumnsClean(rest[1..]);
    }
    assert table.0 != "" ==> table.0[0] == text[0];
  }

  // ---- column lists ----

  function NonEmpty(cs: seq<string>): (r: seq<string>)
    ensures |r| <= |cs|
  {
    if cs == [] then [] else (if cs[0] == "" then [] else [cs[0]]) + NonEmpty(cs[1..])
  }

  lemma {:induction false} NonEmptyAll(cs: seq<string>)
    ensures |NonEmpty(cs)| == |cs| <==> "" !in cs
    ensures "" !in cs ==> NonEmpty(cs) == cs
    decreases |cs|
  {
    if cs != [] {
      NonEmptyAll(cs[1..]);
    }
  }

  /** The text of a column list from some column on, and what follows. */
  function Listed(cs: seq<string>, rest: string): string {
    Join(cs) + ")" + rest
  }

  lemma ListedNext(cs: seq<string>, rest: string)
    requires cs != []
    ensures Listed(cs, rest) == cs[0] + (if |cs| == 1 then "" else ", ") + Listed(cs[1..], rest)
  {
  }

  /** After a column the parser sees the nonempty ones of the rest. */
  lemma {:induction false} ColumnsFrom(cs: seq<string>, rest: string)
    requires forall c :: c in cs ==> Clean(c)
    ensures Columns(Skip(Listed(cs, rest))).0 == NonEmpty(cs)
    ensures Columns(Skip(Listed(cs, rest))).1 == ")" + rest
    decreases |cs|
  {
    hide Columns, Skip, Listed, Clean, IsSeparator;
    if cs == [] {
      NoneListed(rest);
    } else {
      var next := Listed(cs[1..], rest);
      var more := (if |cs| == 1 then "" else ", ") + next;
      ListedNext(cs, rest);
      ColumnsFrom(cs[1..], rest);
      Skipped(cs, next);
      if cs[0] == "" {
        assert cs[0] + (if |cs| == 1 then "" else ", ") + next == more;
      } else {
        assert cs[0] + (if |cs| == 1 then "" else ", ") + next == cs[0] + more;
        EndsListed(cs, rest);
        OneColumn(cs[0], more);
      }
    }
  }

  lemma NoneListed(rest: string)
    ensures Columns(Skip(Listed([], rest))).0 == [] && Columns(Skip(Listed([], rest))).1 == ")" + rest
  {
    assert Listed([], rest) == ")" + rest;
  }

  lemma EndsListed(cs: seq<string>, rest: string)
    requires cs != []
    ensures var more := (if |cs| == 1 then "" else ", ") + Listed(cs[1..], rest);
      more != "" && (more[0] == ',' || more[0] == ')')
  {
  }

  lemma SkipTwice(s: string)
    ensures Skip(Skip(s)) == Skip(s)
  {
  }

  lemma Skipped(cs: seq<string>, next: string)
    ensures Skip((if |cs| == 1 then "" else ", ") + next) == Skip(next)
  {
    if |cs| == 1 {
      assert "" + next == next;
    } else {
      SkipSeparator(next);
    }
  }

  lemma OneColumn(c: string, more: string)
    requires c != "" && Clean(c) && more != "" && (more[0] == ',' || more[0] == ')')
    ensures Skip(c + more) == c + more
    ensures Columns(c + more).0 == [c] + Columns(Skip(more)).0
    ensures Columns(c + more).1 == Columns(Skip(more)).1
  {
    hide Before, Trim;
    assert (c + more)[0] == c[0];
    ColumnsStep(c + more);
    BeforeStop(c, ',', ')', more);
    TrimmedAlready(c);
  }

  /** What comes back of a column list: all of it, or fewer columns if one is empty. */
  lemma ColumnsBack(cs: seq<string>, rest: string)
    requires forall c :: c in cs ==> Clean(c)
    ensures Columns(Listed(cs, rest)).0 == cs <==> "" !in cs
    ensures Columns(Listed(cs, rest)).1 == ")" + rest
  {
    hide Before, Trim, Skip;
    var s := Listed(cs, rest);
    NonEmptyAll(cs);
    if cs == [] || (|cs| == 1 && cs[0] == "") {
      assert s == ")" + rest;
    } else if cs[0] != "" {
      ListedNext(cs, rest);
      var more := (if |cs| == 1 then "" else ", ") + Listed(cs[1..], rest);
      assert s == cs[0] + more;
      OneColumn(cs[0], more);
      ColumnsFrom(cs, rest);
    } else {
      ListedNext(cs, rest);
      var next := Listed(cs[1..], rest);
      assert s == ", " + next;
      SkipSeparator(next);
      ColumnsFrom(cs[1..], rest);
      SkipTwice(next);
      EmptyFirst(s, Skip(next), NonEmpty(cs[1..]), rest);
    }
  }

  /** A list that starts with a separator yields what follows, or one empty name. */
  lemma EmptyFirst(s: string, next: string, names: seq<string>, rest: string)
    requires s != "" && s[0] == ',' && Skip(s) == next == Skip(next)
    requires Columns(next).0 == names && Columns(next).1 == ")" + rest && next != ""
    ensures Columns(s).0 == if names == [] then [""] else names
    ensures Columns(s).1 == ")" + rest
  {
  }

  // ---- whole statements ----

  lemma FindHere(spelled: string, word: string, rest: string)
    requires ToUpper(spelled) == word
    ensures FindKeyword(spelled + rest, word) == Some(0)
  {
    assert (spelled + rest)[..|word|] == spelled;
  }

  lemma FindAfter(c: char, spelled: string, word: string, rest: string)
    requires ToUpper(spelled) == word && word != "" && Upper(c) != word[0]
    ensures FindKeyword([c] + (spelled + rest), word) == Some(1)
  {
    var s := [c] + (spelled + rest);
    assert s[1..] == spelled + rest;
    FindHere(spelled, word, rest);
    assert ToUpper(s[..|word|])[0] == Upper(c);
  }

  function ValuesText(l: Layout): string {
    l.values + (" " + PrintRows(l.rows))
  }

  /** The keywords, in whatever case. */
  predicate Spelled(l: Layout) {
    ToUpper(l.insert) == "INSERT INTO" && ToUpper(l.values) == "VALUES"
  }

  lemma SpelledStart(l: Layout)
    requires Spelled(l)
    ensures ToUpper(l.insert) == "INSERT INTO" && ToUpper(l.values) == "VALUES"
    ensures |l.insert| == 11 && |l.values| == 6 && Upper(l.values[0]) == 'V'
  {
    assert ToUpper(l.values)[0] == 'V';
  }

  /** Lower case is one of the spellings. */
  lemma LowerCase()
    ensures ToUpper("insert into") == "INSERT INTO" && ToUpper("values") == "VALUES"
    ensures ToUpper("INSERT INTO") == "INSERT INTO" && ToUpper("VALUES") == "VALUES"
    ensures ToUpper("Insert Into") == "INSERT INTO" && ToUpper("Values") == "VALUES"
  {
  }

  /** The text behind the table name. */
  function Body(l: Layout): (body: string)
    requires Spelled(l)
    ensures body != "" && if l.columns == [] then Upper(body[0]) == 'V' else body[0] == '('
  {
    SpelledStart(l);
    if l.columns == [] then ValuesText(l)
    else "(" + Listed(l.columns, " " + ValuesText(l))
  }

  lemma PrintParts(l: Layout)
    requires Spelled(l)
    ensures Print(l) == l.insert + (" " + (l.tableName + (" " + Body(l))))
  {
    hide PrintRows, Join, Listed, Body;
    Regroup(l.insert, l.tableName, PrintColumns(l.columns), ValuesText(l));
    BodyParts(l);
  }

  lemma Regroup(a: string, b: string, c: string, d: string)
    ensures a + " " + b + " " + c + d == a + (" " + (b + (" " + (c + d))))
  {
  }

  lemma BodyParts(l: Layout)
    requires Spelled(l)
    ensures PrintColumns(l.columns) + ValuesText(l) == Body(l)
    ensures Print(l) == l.insert + " " + l.tableName + " " + PrintColumns(l.columns) + ValuesText(l)
  {
    hide PrintRows, Join;
  }

  lemma SkipSpace(s: string)
    ensures Skip(" " + s) == Skip(s)
  {
    assert (" " + s)[1..] == s;
  }

  lemma TableBack(t: string, body: string)
    requires TableOk(t) && body != "" && (body[0] == '(' || Upper(body[0]) == 'V')
    requires t == "" ==> body[0] == '('
    ensures var table := Before(Skip(" " + (t + (" " + body))), '(', ' ');
      table.0 == t && Skip(table.1) == body
  {
    hide Before;
    SkipSpace(t + (" " + body));
    SkipSpace(body);
    assert Skip(body) == body;
    if t == "" {
      assert t + (" " + body) == " " + body;
      BeforeStop("", '(', ' ', body);
      assert "" + body == body;
    } else {
      BeforeStop(t, '(', ' ', " " + body);
      assert (t + (" " + body))[0] == t[0];
    }
  }

  lemma NoTable(body: string)
    requires body != "" && Upper(body[0]) == 'V'
    ensures Before(Skip(" " + ("" + (" " + body))), '(', ' ').0 != ""
  {
    assert "" + (" " + body) == " " + body;
    SkipSpace(" " + body);
    SkipSpace(body);
  }

  /** The columns as they come back, and then the rows. */
  lemma BodyBack(l: Layout)
    requires Spelled(l) && AllGood(l.rows) && l.rows != [] && forall c :: c in l.columns ==> Clean(c)
    ensures var columns := AfterTable(Body(l));
      && (columns.0 == l.columns <==> "" !in l.columns)
      && var at := FindKeyword(columns.1, "VALUES");
         at.Some? && Rows(Skip(columns.1[at.value + 6..])) == RowValues(l.rows)
  {
    hide Columns, Join, Rows, PrintRows, FindKeyword, Spelled, AllGood;
    var rows := PrintRows(l.rows);
    RowsBack(l.rows);
    RowsStart(l.rows);
    SkipSpace(rows);
    assert Skip(rows) == rows;
    SpelledStart(l);
    var columns := AfterTable(Body(l));
    if l.columns == [] {
      FindHere(l.values, "VALUES", " " + rows);
      assert columns.1[6..] == " " + rows;
    } else {
      ColumnsBack(l.columns, " " + ValuesText(l));
      assert Body(l)[1..] == Listed(l.columns, " " + ValuesText(l));
      assert columns.1 == [' '] + (l.values + (" " + rows));
      FindAfter(' ', l.values, "VALUES", " " + rows);
      assert columns.1[7..] == " " + rows;
    }
  }

  lemma RowsStart(rows: seq<seq<Written>>)
    requires rows != []
    ensures PrintRows(rows) != "" && PrintRows(rows)[0] == '('
  {
  }

  /** The statements the syntax can express: values are free. */
  predicate Printable(s: InsertStmt) {
    && TableOk(s.tableName)
    && (forall c :: c in s.columns ==> Clean(c) && c != "")
    && s.rows != []
    && (s.tableName != "" || s.columns != [])
  }

  /** Printing and parsing returns the statement exactly for these, however its keywords are spelled and
      whichever of its values stand in quotes, as long as the others are plain. */
  lemma RoundTripIff(l: Layout)
    requires Spelled(l) && AllGood(l.rows)
    ensures Parse(Print(l)) == Ok(Stated(l)) <==> Printable(Stated(l))
  {
    hide Before, Skip, FindKeyword, AfterTable, Rows, Body, TableOk, Clean, Spelled, AllGood;
    var s, text := Stated(l), Print(l);
    if !TableOk(s.tableName) || s.rows == [] || !(forall c :: c in s.columns ==> Clean(c)) {
      if Parse(text) == Ok(s) {
        ParsedShape(text);
        assert false;
      }
    } else {
      var body := Body(l);
      PrintParts(l);
      SpelledStart(l);
      FindHere(l.insert, "INSERT INTO", " " + (s.tableName + (" " + body)));
      assert text[11..] == " " + (s.tableName + (" " + body));
      if s.tableName == "" && s.columns == [] {
        NoTable(body);
      } else {
        TableBack(s.tableName, body);
        BodyBack(l);
      }
    }
  }
}
