/** The directory that holds the SSTable files of one tag.

    A file is represented by its size and by the points a read over all times returns, or by none if
    the reader refuses it: it is incomplete or damaged. */
module TagDirectory {
  import opened Words
  import opened BlockCodec
  import opened TimeOrder
  import SSTable

  datatype File = File(size: nat, content: Option<seq<DataPoint>>)

  type Files = map<string, File>

  predicate IsTable(name: string) {
    |name| >= 4 && name[|name| - 4..] == ".sst"
  }

  predicate Readable(files: Files, name: string) {
    name in files && IsTable(name) && files[name].content.Some?
  }

  /** The points of one file as a set; none for a file that is not read. */
  ghost function PointsIn(files: Files, name: string): set<DataPoint> {
    if Readable(files, name) then PointSet(files[name].content.value) else {}
  }

  /** Every point some readable file of the directory holds. */
  ghost function Visible(files: Files): set<DataPoint> {
    set n, p | n in files && p in PointsIn(files, n) :: p
  }

  lemma {:induction false} FilterSet(points: seq<DataPoint>, range: TimeRange)
    ensures forall p :: p in SSTable.Filter(points, range) <==> p in points && range.Contains(p.ts)
    decreases |points|
  {
    if points != [] {
      FilterSet(points[1..], range);
      assert points == [points[0]] + points[1..];
    }
  }

  /** A directory listing: every file once, in any order. */
  ghost predicate Lists(listing: seq<string>, files: Files) {
    && (forall n :: n in listing <==> n in files)
    && (forall i, j :: 0 <= i < j < |listing| ==> listing[i] != listing[j])
  }

  /** std::to_string */
  function Decimal(n: int): string
    decreases if n < 0 then 1 - n else n
  {
    if n < 0 then ['-'] + Decimal(-n)
    else if n < 10 then [DIGITS[n]]
    else Decimal(n / 10) + [DIGITS[n % 10]]
  }

  const DIGITS := "0123456789"

  /** The number a decimal text denotes. */
  function Denoted(s: string): int {
    if s == "" then 0
    else if s[0] == '-' then -Denoted(s[1..])
    else Denoted(s[..|s| - 1]) * 10 + (s[|s| - 1] as int - '0' as int)
  }

  predicate IsDigit(c: char) {
    '0' <= c <= '9'
  }

  lemma DigitDenotes(d: nat)
    requires d < 10
    ensures IsDigit(DIGITS[d]) && DIGITS[d] as int - '0' as int == d
  {
    assert DIGITS[0] == '0' && DIGITS[1] == '1' && DIGITS[2] == '2' && DIGITS[3] == '3' && DIGITS[4] == '4';
    assert DIGITS[5] == '5' && DIGITS[6] == '6' && DIGITS[7] == '7' && DIGITS[8] == '8' && DIGITS[9] == '9';
  }

  lemma DenotedSnoc(s: string, c: char)
    requires s == "" || s[0] != '-'
    requires c != '-'
    ensures Denoted(s + [c]) == Denoted(s) * 10 + (c as int - '0' as int)
  {
    assert (s + [c])[..|s|] == s;
  }

  /** A number without a sign: digits that denote it, and no zero in front of others. */
  lemma {:induction false} DigitsDenote(n: nat)
    ensures var s := Decimal(n);
      && Denoted(s) == n && s != "" && (forall c :: c in s ==> IsDigit(c))
      && (n > 0 ==> s[0] != '0') && (n == 0 ==> s == "0")
    decreases n
  {
    assert IsDigit('0') && !IsDigit('-') && Denoted("") == 0;
    hide Denoted, Decimal, IsDigit;
    var d := n % 10;
    DigitDenotes(d);
    DecimalStep(n);
    if n < 10 {
      DenotedSnoc("", DIGITS[d]);
      assert "" + [DIGITS[d]] == [DIGITS[d]];
      DigitUnique(d);
    } else {
      DigitsDenote(n / 10);
      var front := Decimal(n / 10);
      assert front[0] in front;
      DenotedSnoc(front, DIGITS[d]);
    }
  }

  lemma DigitUnique(d: nat)
    requires d < 10
    ensures DIGITS[d] == '0' <==> d == 0
  {
    DigitDenotes(d);
  }

  lemma DecimalStep(n: nat)
    ensures Decimal(n) == if n < 10 then [DIGITS[n]] else Decimal(n / 10) + [DIGITS[n % 10]]
  {
  }

  /** The text of a number denotes it: a sign if it is negative, and digits. */
  lemma DecimalDenotes(n: int)
    ensures Denoted(Decimal(n)) == n
    ensures n < 0 ==> Decimal(n) == "-" + Decimal(-n)
    ensures n >= 0 ==> Decimal(n) != "" && forall c :: c in Decimal(n) ==> IsDigit(c)
    ensures n > 0 ==> Decimal(n)[0] != '0'
  {
    hide IsDigit;
    DigitsDenote(if n < 0 then -n else n);
    if n < 0 {
      assert Decimal(n)[1..] == Decimal(-n);
    }
  }

  /** Exactly the names that end in ".sst". */
  lemma IsTableIff(name: string)
    ensures IsTable(name) <==> exists stem :: name == stem + ".sst"
  {
    if IsTable(name) {
      assert name == name[..|name| - 4] + ".sst";
    }
  }

  /** history is every state the directory went through, a crash can leave any of them behind. */
  class Directory {
    var files: Files
    ghost var history: seq<Files>

    constructor (files: Files)
      ensures this.files == files && history == [files]
    {
      this.files, history := files, [files];
    }

    /** SSTableWriter::Open: the file is there, empty and not yet readable. */
    method Create(name: string)
      modifies this
      ensures files == old(files)[name := File(0, None)] && history == old(history) + [files]
    {
      files := files[name := File(0, None)];
      history := history + [files];
    }

    /** SSTableWriter::Close */
    method Complete(name: string, points: seq<DataPoint>, size: nat)
      modifies this
      ensures files == old(files)[name := File(size, Some(points))] && history == old(history) + [files]
    {
      files := files[name := File(size, Some(points))];
      history := history + [files];
    }

    method Rename(from: string, to: string)
      requires from in files
      modifies this
      ensures files == Renamed(old(files), from, to) && history == old(history) + [files]
    {
      files := Renamed(files, from, to);
      history := history + [files];
    }

    /** Removing a file that is not there succeeds. */
    method Remove(name: string)
      modifies this
      ensures files == old(files) - {name} && history == old(history) + [files]
    {
      files := files - {name};
      history := history + [files];
    }
  }

  /** A rename replaces the file that bore the new name. */
  function Renamed(files: Files, from: string, to: string): Files
    requires from in files
  {
    (files - {from})[to := files[from]]
  }
}
