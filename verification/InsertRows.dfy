/** Which rows are read back: a value without quotes that is not plain puts the parser out of step with
    the printed row, and it never falls in step again. */
module InsertRows {
  import opened Words
  import opened InsertParser
  import opened InsertPrinter

  // ---- what the parser has not consumed ----

  predicate IsTail(u: string, t: string) {
    |u| <= |t| && t[|t| - |u|..] == u
  }

  lemma TailOfTail(u: string, v: string, t: string)
    requires IsTail(u, v) && IsTail(v, t)
    ensures IsTail(u, t)
  {
  }

  lemma TailIs(a: string, u: string)
    ensures IsTail(u, a + u)
  {
  }

  lemma WholeTail(u: string, t: string)
    ensures IsTail(t, t)
    ensures IsTail(u, t) ==> |u| <= |t| && (|u| == |t| ==> u == t)
  {
    assert t[|t| - |t|..] == t;
  }

  lemma ShownAs(w: Written)
    ensures Shown(w) == if w.style.Bare? then w.value else Quoted(w.value, w.style.quote)
  {
  }

  /** Of two tails the shorter is a tail of the longer. */
  lemma TailsNest(u: string, v: string, t: string)
    requires IsTail(u, t) && IsTail(v, t) && |u| <= |v|
    ensures IsTail(u, v)
  {
    assert t[|t| - |v|..][|v| - |u|..] == t[|t| - |u|..];
  }

  /** Only separators are skipped. */
  lemma {:induction false} SkipTail(s: string)
    ensures IsTail(Skip(s), s)
    ensures forall i :: 0 <= i < |s| - |Skip(s)| ==> IsSeparator(s[i])
    decreases |s|
  {
    hide IsTail, IsSeparator;
    if s == "" || !IsSeparator(s[0]) {
      assert "" + s == s;
      TailIs("", s);
    } else {
      SkipTail(s[1..]);
      assert s == [s[0]] + s[1..];
      TailIs([s[0]], s[1..]);
      TailOfTail(Skip(s), s[1..], s);
      forall i | 0 <= i < |s| - |Skip(s)|
        ensures IsSeparator(s[i])
      {
        if i > 0 {
          assert s[i] == s[1..][i - 1];
        }
      }
    }
  }

  /** A quoted value was doubled between its quotes; at the end of the text the second quote may miss. */
  lemma {:induction false} UnquoteShape(s: string, quote: char)
    ensures var r := Unquote(s, quote);
      s == Doubled(r.0, quote) + [quote] + r.1 || (r.1 == "" && s == Doubled(r.0, quote))
    decreases |s|
  {
    hide Doubled;
    if s == "" {
      NothingDoubled(quote);
    } else if s[0] != quote {
      UnquoteShape(s[1..], quote);
      assert s == [s[0]] + s[1..];
      DoubledCons(s[0], Unquote(s[1..], quote).0, quote);
    } else if |s| > 1 && s[1] == quote {
      UnquoteShape(s[2..], quote);
      assert s == [quote, quote] + s[2..];
      DoubledCons(quote, Unquote(s[2..], quote).0, quote);
    } else {
      NothingDoubled(quote);
      assert s == "" + [quote] + s[1..];
    }
  }

  lemma NothingDoubled(quote: char)
    ensures Doubled("", quote) == ""
  {
  }

  lemma DoubledCons(x: char, v: string, quote: char)
    ensures Doubled([x] + v, quote) == (if x == quote then [quote, quote] else [x]) + Doubled(v, quote)
  {
    assert ([x] + v)[1..] == v;
  }

  /** What the parser consumes for a value: a quoted form of it, if the text goes on, or a text without
      comma and parenthesis of which the value is the trimmed part. */
  lemma ItemShape(s: string) returns (c: string)
    ensures s == c + Item(s).1
    ensures s != "" && IsQuote(s[0]) && Item(s).1 != "" ==> c == Quoted(Item(s).0, s[0])
    ensures !(s != "" && IsQuote(s[0])) ==>
      && ',' !in c && ')' !in c && Item(s).0 == Trim(c)
      && (Item(s).1 == "" || Item(s).1[0] == ',' || Item(s).1[0] == ')')
  {
    hide Unquote, Before, Trim, Doubled;
    if s != "" && IsQuote(s[0]) {
      UnquoteShape(s[1..], s[0]);
      var r := Unquote(s[1..], s[0]);
      assert s == [s[0]] + s[1..];
      if s[1..] == Doubled(r.0, s[0]) + [s[0]] + r.1 {
        c := Quoted(r.0, s[0]);
      } else {
        c := s;
      }
    } else {
      c := Before(s, ',', ')').0;
    }
  }

  lemma {:induction false} DoubledLength(v: string, quote: char)
    ensures |Doubled(v, quote)| >= |v|
    decreases |v|
  {
    if v != "" {
      DoubledLength(v[1..], quote);
    }
  }

  lemma {:induction false} TrimLength(c: string)
    ensures |TrimLeft(c)| <= |c| && |TrimRight(c)| <= |c|
    decreases |c|
  {
    if c != "" {
      TrimLength(c[1..]);
      TrimLength(c[..|c| - 1]);
    }
  }

  lemma ReadLength(c: string, s: string)
    requires s == c + Item(s).1 && Item(s).1 != ""
    requires s != "" && IsQuote(s[0]) ==> c == Quoted(Item(s).0, s[0])
    requires !(s != "" && IsQuote(s[0])) ==> Item(s).0 == Trim(c)
    ensures |Item(s).0| + (if s != "" && IsQuote(s[0]) then 2 else 0) <= |c|
  {
    hide Item, Doubled;
    if s != "" && IsQuote(s[0]) {
      DoubledLength(Item(s).0, s[0]);
    } else {
      TrimLength(c);
      TrimLength(TrimLeft(c));
    }
  }

  // ---- a printed value has no other reading ----

  function Count(s: string, x: char): nat {
    if s == "" then 0 else (if s[0] == x then 1 else 0) + Count(s[1..], x)
  }

  lemma {:induction false} CountConcat(a: string, b: string, x: char)
    ensures Count(a + b, x) == Count(a, x) + Count(b, x)
    decreases |a|
  {
    if a == "" {
      assert a + b == b;
    } else {
      assert (a + b)[1..] == a[1..] + b;
      CountConcat(a[1..], b, x);
    }
  }

  lemma {:induction false} CountDoubled(v: string, quote: char, x: char)
    ensures Count(Doubled(v, quote), x) == if x == quote then 2 * Count(v, x) else Count(v, x)
    decreases |v|
  {
    if v != "" {
      CountDoubled(v[1..], quote, x);
      var first := if v[0] == quote then [quote, quote] else [v[0]];
      CountConcat(first, Doubled(v[1..], quote), x);
      assert first[1..] == if v[0] == quote then [quote] else "";
      assert Count(first, x) == if v[0] != x then 0 else if x == quote then 2 else 1;
    }
  }

  /** How many quotes end a text. */
  function TrailingQuotes(s: string, quote: char): (n: nat)
    ensures n <= |s|
  {
    if s == "" || s[|s| - 1] != quote then 0 else 1 + TrailingQuotes(s[..|s| - 1], quote)
  }

  lemma {:induction false} TrailingInTail(a: string, t: string, quote: char)
    requires TrailingQuotes(t, quote) < |t|
    ensures TrailingQuotes(a + t, quote) == TrailingQuotes(t, quote)
    decreases |t|
  {
    var n := |t| - 1;
    assert (a + t)[|a + t| - 1] == t[n];
    if t[n] == quote {
      assert (a + t)[..|a + t| - 1] == a + t[..n];
      TrailingInTail(a, t[..n], quote);
    }
  }

  lemma {:induction false} DoubledSnoc(v: string, x: char, quote: char)
    ensures Doubled(v + [x], quote) == Doubled(v, quote) + if x == quote then [quote, quote] else [x]
    decreases |v|
  {
    if v == "" {
      assert v + [x] == [x];
      assert [x][1..] == "";
    } else {
      assert (v + [x])[1..] == v[1..] + [x];
      DoubledSnoc(v[1..], x, quote);
    }
  }

  lemma {:induction false} TrailingDoubled(v: string, quote: char)
    ensures TrailingQuotes(Doubled(v, quote), quote) == 2 * TrailingQuotes(v, quote)
    decreases |v|
  {
    if v != "" {
      var n := |v| - 1;
      var d := Doubled(v[..n], quote);
      assert v == v[..n] + [v[n]];
      DoubledSnoc(v[..n], v[n], quote);
      if v[n] == quote {
        TrailingDoubled(v[..n], quote);
        assert (d + [quote, quote])[..|d| + 1] == d + [quote];
        assert (d + [quote])[..|d|] == d;
      }
    }
  }

  /** A value that ends in a quote is not, but for that quote, the end of its own doubled form. */
  lemma NotOwnTail(v: string, quote: char, t: string)
    requires v == t + [quote] && v[0] != quote
    ensures !IsTail(t, Doubled(v, quote))
  {
    hide Doubled;
    assert v[..|v| - 1] == t;
    TrailingDoubled(v, quote);
    assert t[0] == v[0];
    NotAllQuotes(t, quote);
    if IsTail(t, Doubled(v, quote)) {
      TailTrailing(t, Doubled(v, quote), quote);
    }
  }

  lemma TailTrailing(t: string, d: string, quote: char)
    requires IsTail(t, d) && TrailingQuotes(t, quote) < |t|
    ensures TrailingQuotes(d, quote) == TrailingQuotes(t, quote)
  {
    assert d == d[..|d| - |t|] + t;
    TrailingInTail(d[..|d| - |t|], t, quote);
  }

  lemma {:induction false} NotAllQuotes(t: string, quote: char)
    requires t != "" && t[0] != quote
    ensures TrailingQuotes(t, quote) < |t|
    decreases |t|
  {
    if |t| > 1 && t[|t| - 1] == quote {
      NotAllQuotes(t[..|t| - 1], quote);
    }
  }

  lemma {:induction false} DoubledChars(v: string, quote: char, x: char)
    requires x !in v
    ensures x !in Doubled(v, quote)
    decreases |v|
  {
    if v != "" {
      assert v == [v[0]] + v[1..];
      DoubledChars(v[1..], quote, x);
    }
  }

  lemma TrimNothing(c: string)
    requires c != "" && !IsSpace(c[0]) && !IsSpace(c[|c| - 1])
    ensures Trim(c) == c
  {
  }

  lemma {:induction false} TrimChars(c: string, x: char)
    requires x !in c
    ensures x !in TrimLeft(c) && x !in TrimRight(c)
    decreases |c|
  {
    if c != "" {
      TrimChars(c[1..], x);
      TrimChars(c[..|c| - 1], x);
    }
  }

  /** Read with the other kind of quote, the inside of a quoted value does not yield that value: it has
      too few of these quotes. */
  lemma OtherQuote(v: string, quote: char, other: char, tail: string, c: string)
    requires other != quote && IsTail(tail, Quoted(v, quote)) && |tail| < |Quoted(v, quote)|
    requires |c| <= |tail| && c == tail[..|c|]
    ensures c != Quoted(v, other)
  {
    hide Count, Doubled;
    var d := Doubled(v, quote) + [quote];
    assert Quoted(v, quote)[1..] == d;
    assert tail == d[|d| - |tail|..];
    assert d == d[..|d| - |tail|] + tail && tail == c + tail[|c|..];
    CountConcat(d[..|d| - |tail|], tail, other);
    CountConcat(c, tail[|c|..], other);
    CountDoubled(v, quote, other);
    CountConcat(Doubled(v, quote), [quote], other);
    CountOne(quote, other);
    CountDoubled(v, other, other);
    CountConcat([other] + Doubled(v, other), [other], other);
    CountConcat([other], Doubled(v, other), other);
    CountOne(other, other);
  }

  lemma CountOne(c: char, x: char)
    ensures Count([c], x) == if c == x then 1 else 0
  {
    assert [c][1..] == "";
  }

  /** Read without quotes, it does not yield that value either. */
  lemma NoBareReading(v: string, quote: char, tail: string, c: string, more: string)
    requires IsTail(tail, Quoted(v, quote)) && |tail| < |Quoted(v, quote)| && IsQuote(quote)
    requires tail != "" && !IsSpace(tail[0]) && !IsQuote(tail[0])
    requires |c| <= |tail| && c == tail[..|c|] && ',' !in c && ')' !in c
    requires |c| < |tail| ==> tail[|c|] == ',' || tail[|c|] == ')'
    ensures Trim(c) != v
  {
    hide Trim, Doubled;
    var d := Doubled(v, quote);
    assert Quoted(v, quote)[1..] == d + [quote];
    assert tail == (d + [quote])[|d| + 1 - |tail|..];
    var t := tail[..|tail| - 1];
    assert tail == t + [quote] && IsTail(t, d);
    if Trim(c) == v {
      NoStops(c);
      DoubledChars(v, quote, ',');
      DoubledChars(v, quote, ')');
      assert ',' !in d + [quote] && ')' !in d + [quote];
      assert forall x :: x in tail ==> x in d + [quote];
      assert c == tail;
      TrimNothing(c);
      NotOwnTail(v, quote, t);
    }
  }

  lemma NoStops(c: string)
    requires ',' !in c && ')' !in c
    ensures ',' !in Trim(c) && ')' !in Trim(c)
  {
    TrimChars(c, ',');
    TrimChars(c, ')');
    TrimChars(TrimLeft(c), ',');
    TrimChars(TrimLeft(c), ')');
  }

  // ---- out of step ----

  predicate Stops(more: string) {
    more != "" && (more[0] == ',' || more[0] == ')')
  }

  lemma ItemTail(s: string)
    ensures IsTail(Item(s).1, s)
  {
    hide Item;
    var c := ItemShape(s);
    TailIs(c, Item(s).1);
  }

  /** Reading the value from behind its first character takes the parser past its end. */
  lemma NoLaterReading(w: Written, more: string, u: string)
    requires (w.style.InQuotes? ==> IsQuote(w.style.quote)) && Stops(more)
    requires IsTail(u, Shown(w) + more) && |u| < |Shown(w) + more| && u != "" && u[0] != ')'
    requires Item(Skip(u)).0 == w.value
    ensures |Item(Skip(u)).1| < |more|
  {
    hide Item, Skip, Shown;
    var s := Skip(u);
    SkipTail(u);
    ItemTail(s);
    TailOfTail(s, u, Shown(w) + more);
    if |Item(s).1| >= |more| {
      NotWithin(w, more, u, s);
    }
  }

  lemma NotWithin(w: Written, more: string, u: string, s: string)
    requires (w.style.InQuotes? ==> IsQuote(w.style.quote)) && Stops(more)
    requires IsTail(u, Shown(w) + more) && |u| < |Shown(w) + more| && u != "" && u[0] != ')'
    requires s == Skip(u) && IsTail(s, Shown(w) + more) && |s| <= |u| && |Item(s).1| >= |more|
    ensures Item(s).0 != w.value
  {
    hide Item, Skip, Shown, IsSeparator, IsQuote, Trim, Quoted, IsTail;
    ItemLength(s);
    var tail := TailParts(Shown(w), more, s);
    var c := ItemShape(s);
    Prefix(c, Item(s).1, tail, more);
    if w.style.InQuotes? {
      SomethingLeft(w, more, u, s, tail);
      NotFromInside(w, more, s, tail, c);
    } else {
      ShownAs(w);
      ReadLength(c, s);
    }
  }

  lemma ItemLength(s: string)
    ensures |Item(s).1| <= |s|
  {
    ItemTail(s);
  }

  lemma TailParts(shown: string, more: string, s: string) returns (tail: string)
    requires IsTail(s, shown + more) && |more| <= |s|
    ensures s == tail + more && IsTail(tail, shown)
  {
    var t := shown + more;
    tail := t[|t| - |s|..|shown|];
    assert s == t[|t| - |s|..] == tail + more;
    assert shown[|shown| - |tail|..] == tail;
  }

  lemma Prefix(c: string, w: string, tail: string, more: string)
    requires c + w == tail + more && |w| >= |more|
    ensures |c| <= |tail| && c == tail[..|c|]
  {
    assert c == (c + w)[..|c|];
  }

  /** The parser does not stand behind the closing quote: it would stand at the parenthesis, or at a comma. */
  lemma SomethingLeft(w: Written, more: string, u: string, s: string, tail: string)
    requires w.style.InQuotes? && IsQuote(w.style.quote) && Stops(more)
    requires IsTail(u, Shown(w) + more) && u != "" && u[0] != ')' && s == Skip(u) && s == tail + more
    ensures tail != ""
  {
    hide Skip, Shown, IsTail;
    SkippedLast(u);
    ShownAs(w);
    hide Quoted;
    QuotedEnds(w.value, w.style.quote);
    LastBefore(Shown(w), more, u);
  }

  lemma SkippedLast(u: string)
    ensures |Skip(u)| <= |u| && u[|u| - |Skip(u)|..] == Skip(u)
    ensures |Skip(u)| < |u| ==> IsSeparator(u[|u| - |Skip(u)| - 1])
  {
    hide Skip, IsSeparator;
    SkipTail(u);
  }

  lemma LastBefore(shown: string, more: string, u: string)
    requires IsTail(u, shown + more) && shown != ""
    ensures |u| > |more| ==> u[|u| - |more| - 1] == shown[|shown| - 1]
  {
    var t := shown + more;
    if |u| > |more| {
      assert t[|t| - |u|..][|u| - |more| - 1] == t[|shown| - 1];
    }
  }

  lemma NotFromInside(w: Written, more: string, s: string, tail: string, c: string)
    requires w.style.InQuotes? && IsQuote(w.style.quote) && Stops(more)
    requires s == tail + more && tail != "" && IsTail(tail, Shown(w)) && |tail| < |Shown(w)| && !IsSeparator(s[0])
    requires s == c + Item(s).1 && |Item(s).1| >= |more| && |c| <= |tail| && c == tail[..|c|]
    requires IsQuote(s[0]) ==> c == Quoted(Item(s).0, s[0])
    requires !IsQuote(s[0]) ==>
      ',' !in c && ')' !in c && Item(s).0 == Trim(c) && (Item(s).1[0] == ',' || Item(s).1[0] == ')')
    ensures Item(s).0 != w.value
  {
    hide Item, Doubled, Trim;
    var v, quote := w.value, w.style.quote;
    assert s[0] == tail[0];
    assert |c| < |tail| ==> s[|c|] == tail[|c|] == Item(s).1[0];
    if IsQuote(s[0]) {
      if s[0] != quote {
        OtherQuote(v, quote, s[0], tail, c);
      }
    } else {
      NoBareReading(v, quote, tail, c, more);
    }
  }

  /** Past the end of a value it stands behind the next value's first character, or at a parenthesis. */
  lemma Crossed(shown: string, next: string, s: string)
    requires next != "" && IsTail(s, shown + (", " + next)) && (s != "" ==> !IsSeparator(s[0]))
    requires |Item(s).1| < |next| + 2
    ensures |Item(s).1| < |next| || (Item(s).1 == next && next[0] == ')')
  {
    hide Item, Quoted, Trim, IsTail;
    var more := ", " + next;
    var t := shown + more;
    var w := Item(s).1;
    ItemTail(s);
    TailOfTail(w, s, t);
    TailIs(shown, more);
    TailIs(", ", next);
    TailOfTail(next, more, t);
    var c := ItemShape(s);
    if |w| >= |next| {
      if |s| <= |more| {
        TailsNest(s, more, t);
        ItemLength(s);
        NotAtSeparator(s, next);
        assert c == "" && w == s;
      } else {
        TailsNest(more, s, t);
        AcrossComma(s, c, next, w);
        QuotedEnds(Item(s).0, s[0]);
      }
    }
  }

  lemma NotAtSeparator(s: string, next: string)
    requires IsTail(s, ", " + next) && |next| <= |s| && s != "" && !IsSeparator(s[0])
    ensures s == next
  {
    var more := ", " + next;
    assert s[0] == more[|more| - |s|];
  }

  /** Nothing the parser consumes for one value ends right behind a comma it holds. */
  lemma AcrossComma(s: string, c: string, next: string, w: string)
    requires IsTail(", " + next, s) && s == c + w && |next| <= |w| < |next| + 2
    ensures c != "" && (c[|c| - 1] == ',' || c[|c| - 1] == ' ') && ',' in c
  {
    var k := |s| - |next| - 2;
    assert s[k..][0] == ',' && s[k..][1] == ' ';
    assert s[k] == c[k] == ',';
  }

  lemma QuotedEnds(v: string, quote: char)
    ensures var q := Quoted(v, quote);
      q != "" && q[|q| - 1] == quote
  {
    hide Doubled;
  }

  lemma NoneRead(u: string)
    requires Row(u).0 == []
    ensures Row(u).1 == u
  {
    hide Item, Skip;
  }

  lemma SameRest<T>(x: T, a: seq<T>, y: T, b: seq<T>)
    requires [x] + a == [y] + b
    ensures x == y && a == b
  {
    assert ([x] + a)[0] == ([y] + b)[0] && ([x] + a)[1..] == a && ([y] + b)[1..] == b;
  }

  /** The first value and what is read behind it. */
  lemma FirstRead(row: seq<Written>, rest: string, u: string)
    requires row != [] && u != "" && u[0] != ')' && Row(u) == (ValuesOf(row), ")" + rest)
    ensures Item(Skip(u)).0 == row[0].value
    ensures Row(Skip(Item(Skip(u)).1)) == (ValuesOf(row[1..]), ")" + rest)
  {
    hide Item, Skip, Row;
    RowStep(u);
    SameRest(Item(Skip(u)).0, Row(Skip(Item(Skip(u)).1)).0, row[0].value, ValuesOf(row[1..]));
  }

  /** What is left of a row behind a value, once the parser is past the value's end. */
  lemma GoesOn(row: seq<Written>, rest: string, u: string)
    requires row != [] && IsTail(u, RowText(row, rest)) && u != "" && u[0] != ')'
    requires Row(u) == (ValuesOf(row), ")" + rest) && |Item(Skip(u)).1| < |BehindFirst(row, rest)|
    ensures |row| > 1
    ensures var v := Skip(Item(Skip(u)).1);
      && IsTail(v, RowText(row[1..], rest)) && |v| < |RowText(row[1..], rest)|
      && Row(v) == (ValuesOf(row[1..]), ")" + rest)
  {
    hide Item, Skip, Row, RowText, IsTail;
    FirstRead(row, rest, u);
    var w := Item(Skip(u)).1;
    ShorterSkip(w);
    if |row| == 1 {
      NoneRead(Skip(w));
    } else {
      Inside(row, rest, u, w);
    }
  }

  lemma ShorterSkip(w: string)
    ensures |Skip(w)| <= |w|
  {
    SkipTail(w);
  }

  lemma Inside(row: seq<Written>, rest: string, u: string, w: string)
    requires |row| > 1 && IsTail(u, RowText(row, rest)) && w == Item(Skip(u)).1 && |w| < |BehindFirst(row, rest)|
    requires Row(Skip(w)) == (ValuesOf(row[1..]), ")" + rest)
    ensures IsTail(Skip(w), RowText(row[1..], rest)) && |Skip(w)| < |RowText(row[1..], rest)|
  {
    hide Item, Skip, Row, RowText, IsTail, Shown;
    var t, next := RowText(row, rest), RowText(row[1..], rest);
    ValuesNext(row, rest);
    SkipTail(u);
    TailOfTail(Skip(u), u, t);
    NextNotEmpty(row[1..], rest);
    Crossed(Shown(row[0]), next, Skip(u));
    if |w| >= |next| {
      SkipStops(next);
      RowStop(next);
    } else {
      ItemTail(Skip(u));
      TailOfTail(w, Skip(u), t);
      NextTail(row, rest);
      TailsNest(w, next, t);
      SkipTail(w);
      TailOfTail(Skip(w), w, next);
      ShorterSkip(w);
    }
  }

  lemma SkipStops(s: string)
    requires s != "" && s[0] == ')'
    ensures Skip(s) == s
  {
  }

  lemma NextNotEmpty(row: seq<Written>, rest: string)
    ensures RowText(row, rest) != ""
  {
    hide Join, ShownAll;
  }

  lemma NextTail(row: seq<Written>, rest: string)
    requires |row| > 1
    ensures IsTail(RowText(row[1..], rest), RowText(row, rest))
  {
    hide RowText;
    ValuesNext(row, rest);
    TailIs(", ", RowText(row[1..], rest));
    TailIs(Shown(row[0]), ", " + RowText(row[1..], rest));
    TailOfTail(RowText(row[1..], rest), ", " + RowText(row[1..], rest), RowText(row, rest));
  }

  /** Once out of step, the parser does not read the values that were printed. */
  lemma {:induction false} NeverAgain(row: seq<Written>, rest: string, u: string)
    requires Legal(row) && row != [] && IsTail(u, RowText(row, rest)) && |u| < |RowText(row, rest)|
    ensures Row(u) != (ValuesOf(row), ")" + rest)
    decreases |row|
  {
    hide Item, Skip, Row, RowText, IsTail, Shown;
    if Row(u) == (ValuesOf(row), ")" + rest) {
      ReadsSome(row, rest, u);
      FirstRead(row, rest, u);
      ValuesNext(row, rest);
      assert row[0] in row;
      NoLaterReading(row[0], BehindFirst(row, rest), u);
      GoesOn(row, rest, u);
      NeverAgain(row[1..], rest, Skip(Item(Skip(u)).1));
    }
  }

  lemma ReadsSome(row: seq<Written>, rest: string, u: string)
    requires row != [] && Row(u) == (ValuesOf(row), ")" + rest)
    ensures u != "" && u[0] != ')'
  {
    hide Item, Skip;
  }

  // ---- in step ----

  /** A value that is not plain, written without quotes, does. */
  lemma NotPlainRead(v: string, more: string)
    requires !Plain(v) && Stops(more) && (v + more)[0] != ')'
    requires Item(Skip(v + more)).0 == v
    ensures |Item(Skip(v + more)).1| < |more|
  {
    hide Item, Skip, Trim, Quoted;
    var u := v + more;
    var s := Skip(u);
    SkipTail(u);
    ItemTail(s);
    if |Item(s).1| >= |more| {
      PlainRead(v, more, s);
    }
  }

  lemma PlainRead(v: string, more: string, s: string)
    requires Stops(more) && (v + more)[0] != ')' && s == Skip(v + more) && IsTail(s, v + more)
    requires Item(s).0 == v && |Item(s).1| >= |more|
    ensures Plain(v)
  {
    hide Item, Skip, Trim, Quoted, IsTail, Clean;
    var c := ItemShape(s);
    ReadLength(c, s);
    WholeTail(s, v + more);
    assert s == v + more;
    assert c == v by { assert c == s[..|c|]; }
    TrimmedIsClean(c);
  }

  lemma TrimmedIsClean(c: string)
    requires Trim(c) == c && ',' !in c && ')' !in c
    ensures Clean(c)
  {
    TrimClean(c);
  }

  lemma {:induction false} OnlyPlain(row: seq<Written>, rest: string)
    requires Legal(row) && Row(RowText(row, rest)) == (ValuesOf(row), ")" + rest)
    ensures BaresPlain(row)
    decreases |row|
  {
    hide Item, Skip, Row, RowText, IsTail, Shown, Plain;
    if row != [] {
      var t, more := RowText(row, rest), BehindFirst(row, rest);
      ValuesNext(row, rest);
      assert row[0] in row;
      if row[0].style.InQuotes? || Plain(row[0].value) {
        OneValue(row[0], more);
        SameRest(row[0].value, Row(Skip(more)).0, row[0].value, ValuesOf(row[1..]));
        if |row| > 1 {
          SkipToNext(row, rest);
          var next := RowText(row[1..], rest);
          SkipTail(next);
          if |Skip(next)| < |next| {
            NeverAgain(row[1..], rest, Skip(next));
          } else {
            WholeTail(Skip(next), next);
            OnlyPlain(row[1..], rest);
          }
        }
      } else {
        ReadsSome(row, rest, t);
        FirstRead(row, rest, t);
        ShownAs(row[0]);
        NotPlainRead(row[0].value, more);
        WholeTail(t, t);
        GoesOn(row, rest, t);
        NeverAgain(row[1..], rest, Skip(Item(Skip(t)).1));
      }
    }
  }

  /** A printed row is read back if and only if every value without quotes is plain: not empty, no comma or
      closing parenthesis, no quote at its start, and no blank at either end. */
  lemma RowBackIff(row: seq<Written>, rest: string)
    requires forall w :: w in row && w.style.InQuotes? ==> w.style.quote == '\'' || w.style.quote == '"'
    ensures Row(Join(ShownAll(row)) + ")" + rest) == (ValuesOf(row), ")" + rest)
       <==> forall w :: w in row && w.style.Bare? ==>
              && w.value != "" && ',' !in w.value && ')' !in w.value
              && w.value[0] !in {'\'', '"', ' ', '\t', '\r', '\n'}
              && w.value[|w.value| - 1] !in {' ', '\t', '\r', '\n'}
  {
    hide Row, Shown;
    assert RowText(row, rest) == Join(ShownAll(row)) + ")" + rest;
    assert Legal(row);
    if BaresPlain(row) {
      RowBack(row, rest);
    }
    if Row(RowText(row, rest)) == (ValuesOf(row), ")" + rest) {
      OnlyPlain(row, rest);
    }
  }
}
