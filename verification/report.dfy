/** The summary line printed after the walk. */
module Report {
  import opened Lines
  import opened Seqs

  /** The noun after the directory count: plural only above one. */
  function DirWord(n: nat): string
  {
    if n > 1 then "directories" else "directory"
  }

  /** The noun after the file count: plural only above one. */
  function FileWord(n: nat): string
  {
    if n > 1 then "files" else "file"
  }

  /** The word rule: a count of 0 or 1 takes the singular. */
  lemma PluralOnlyAboveOne(n: nat)
    ensures DirWord(n) == "directories" <==> n > 1
    ensures DirWord(n) == "directory" <==> n <= 1
    ensures FileWord(n) == "files" <==> n > 1
    ensures FileWord(n) == "file" <==> n <= 1
  {
  }

  predicate IsDigit(c: char)
  {
    '0' <= c <= '9'
  }

  predicate AllDigits(s: string)
  {
    forall i :: 0 <= i < |s| ==> IsDigit(s[i])
  }

  /** The decimal text of a count, as `{}` formats an unsigned integer. */
  function Decimal(n: nat): (r: string)
    ensures r != [] && AllDigits(r)
    ensures r[0] == '0' ==> r == "0"
  {
    if n < 10 then [(n + '0' as int) as char]
    else Decimal(n / 10) + [(n % 10 + '0' as int) as char]
  }

  /** Reads a text of digits as a number. */
  function ParseDecimal(s: string): nat
    requires AllDigits(s)
  {
    if s == [] then 0
    else ParseDecimal(s[..|s| - 1]) * 10 + (s[|s| - 1] as int - '0' as int)
  }

  lemma {:induction false} DecimalRoundTrip(n: nat)
    ensures ParseDecimal(Decimal(n)) == n
  {
    if n >= 10 {
      var r := Decimal(n);
      assert r[..|r| - 1] == Decimal(n / 10);
      DecimalRoundTrip(n / 10);
    }
  }

  /** `"{dirs} {dir_word}, {files} {file_word}"` */
  function Summary(dirs: nat, files: nat): string
  {
    Decimal(dirs) + " " + DirWord(dirs) + ", " + Decimal(files) + " " + FileWord(files)
  }

  /** The longest prefix of digits. */
  function TakeDigits(s: string): (r: string)
    ensures |r| <= |s| && r == s[..|r|] && AllDigits(r)
    ensures |r| < |s| ==> !IsDigit(s[|r|])
  {
    if s != [] && IsDigit(s[0]) then [s[0]] + TakeDigits(s[1..]) else []
  }

  lemma {:induction false} TakeDigitsOf(a: string, b: string)
    requires AllDigits(a)
    requires b == [] || !IsDigit(b[0])
    ensures TakeDigits(a + b) == a
  {
    if a != [] {
      assert (a + b)[1..] == a[1..] + b;
      TakeDigitsOf(a[1..], b);
    } else {
      assert a + b == b;
    }
  }

  /** Removes the directory noun that `n` takes, and its separators, from
      the front of a text; the other noun is refused. */
  function AfterDirWord(n: nat, r: string): Option<string>
  {
    var word := " " + DirWord(n) + ", ";
    if |word| <= |r| && r[..|word|] == word then Some(r[|word|..]) else None
  }

  /** Reads a summary line back into its two counts. Each noun must be the
      one its count takes, so a summary that breaks the plural rule is
      refused. */
  function ParseSummary(s: string): Option<(nat, nat)>
  {
    var a := TakeDigits(s);
    var dirs := ParseDecimal(a);
    match AfterDirWord(dirs, s[|a|..])
    case None => None
    case Some(r) =>
      var b := TakeDigits(r);
      var files := ParseDecimal(b);
      if a != [] && b != [] && r[|b|..] == " " + FileWord(files) then Some((dirs, files))
      else None
  }

  lemma AfterDirWordOf(n: nat, rest: string)
    ensures AfterDirWord(n, " " + DirWord(n) + ", " + rest) == Some(rest)
  {
    var word := " " + DirWord(n) + ", ";
    var r := word + rest;
    assert r[..|word|] == word;
    assert r[|word|..] == rest;
  }

  /** The summary line states both counts recoverably, each with the noun
      the plural rule gives it. */
  lemma {:induction false} SummaryRoundTrip(dirs: nat, files: nat)
    ensures ParseSummary(Summary(dirs, files)) == Some((dirs, files))
  {
    var a := Decimal(dirs);
    var b := Decimal(files);
    var tail := " " + FileWord(files);
    var r := b + tail;
    var afterA := " " + DirWord(dirs) + ", " + r;
    SummarySplit(dirs, files);
    DecimalRoundTrip(dirs);
    DecimalRoundTrip(files);
    assert AfterDirWord(dirs, afterA) == Some(r) by {
      AfterDirWordOf(dirs, r);
    }
    ParseParts(a, afterA, r, b, tail);
  }

  /** The plural directory noun after a count of at most one is refused. */
  lemma PluralNounNeedsMany(dirs: nat, rest: string)
    requires dirs <= 1
    ensures ParseSummary(Decimal(dirs) + " directories, " + rest) == None
  {
    var t := " directories, " + rest;
    var word := " " + DirWord(dirs) + ", ";
    assert word == " directory, ";
    assert t[9] == 'i' && word[9] == 'y';
    assert AfterDirWord(dirs, t) == None by {
      if |word| <= |t| {
        assert t[..|word|][9] == t[9];
      }
    }
    AppendAssoc(Decimal(dirs), " directories, ", rest);
    ParseRefused(dirs, t);
  }

  /** The singular directory noun after a count above one is refused. */
  lemma SingularNounNeedsFew(dirs: nat, rest: string)
    requires dirs > 1
    ensures ParseSummary(Decimal(dirs) + " directory, " + rest) == None
  {
    var t := " directory, " + rest;
    var word := " " + DirWord(dirs) + ", ";
    assert word == " directories, ";
    assert t[9] == 'y' && word[9] == 'i';
    assert AfterDirWord(dirs, t) == None by {
      if |word| <= |t| {
        assert t[..|word|][9] == t[9];
      }
    }
    AppendAssoc(Decimal(dirs), " directory, ", rest);
    ParseRefused(dirs, t);
  }

  /** A count followed by a text that does not start with its noun is
      refused. */
  lemma ParseRefused(dirs: nat, t: string)
    requires t != [] && t[0] == ' '
    requires AfterDirWord(dirs, t) == None
    ensures ParseSummary(Decimal(dirs) + t) == None
  {
    var a := Decimal(dirs);
    TakeDigitsOf(a, t);
    DecimalRoundTrip(dirs);
    assert (a + t)[|a|..] == t;
  }

  lemma SummarySplit(dirs: nat, files: nat)
    ensures Summary(dirs, files)
      == Decimal(dirs) + (" " + DirWord(dirs) + ", " + (Decimal(files) + (" " + FileWord(files))))
  {
  }

  lemma ParseParts(a: string, afterA: string, r: string, b: string, tail: string)
    requires AllDigits(a) && AllDigits(b) && a != [] && b != []
    requires afterA == [] || !IsDigit(afterA[0])
    requires AfterDirWord(ParseDecimal(a), afterA) == Some(r) && r == b + tail
    requires tail == " " + FileWord(ParseDecimal(b))
    ensures ParseSummary(a + afterA) == Some((ParseDecimal(a), ParseDecimal(b)))
  {
    var s := a + afterA;
    assert TakeDigits(s) == a by {
      TakeDigitsOf(a, afterA);
    }
    assert s[|a|..] == afterA;
    assert TakeDigits(r) == b && r[|b|..] == tail by {
      TakeDigitsOf(b, tail);
    }
    ParseSummaryOf(s, a, r, b, tail);
  }

  lemma ParseSummaryOf(s: string, a: string, r: string, b: string, tail: string)
    requires AllDigits(a) && AllDigits(b) && a != [] && b != []
    requires TakeDigits(s) == a && AfterDirWord(ParseDecimal(a), s[|a|..]) == Some(r)
    requires TakeDigits(r) == b && r[|b|..] == tail
    requires tail == " " + FileWord(ParseDecimal(b))
    ensures ParseSummary(s) == Some((ParseDecimal(a), ParseDecimal(b)))
  {
  }

  /** An empty walk: both counts take the singular. */
  lemma EmptySummary()
    ensures Summary(0, 0) == "0 directory, 0 file"
  {
    assert Summary(0, 0) == Decimal(0) + " " + DirWord(0) + ", " + Decimal(0) + " " + FileWord(0);
    assert Decimal(0) == "0";
    assert DirWord(0) == "directory" && FileWord(0) == "file";
  }

  /** One directory stays singular while two files take the plural. */
  lemma MixedSummary()
    ensures Summary(1, 2) == "1 directory, 2 files"
  {
    assert Summary(1, 2) == Decimal(1) + " " + DirWord(1) + ", " + Decimal(2) + " " + FileWord(2);
    assert Decimal(1) == "1" && Decimal(2) == "2";
    assert DirWord(1) == "directory" && FileWord(2) == "files";
  }

  /** Both counts above one take the plural. */
  lemma PluralSummary()
    ensures Summary(2, 5) == "2 directories, 5 files"
  {
    assert Summary(2, 5) == Decimal(2) + " " + DirWord(2) + ", " + Decimal(5) + " " + FileWord(5);
    assert Decimal(2) == "2" && Decimal(5) == "5";
    assert DirWord(2) == "directories" && FileWord(5) == "files";
  }

  /** A single file takes the singular. */
  lemma SingleFileSummary()
    ensures Summary(0, 1) == "0 directory, 1 file"
  {
    assert Summary(0, 1) == Decimal(0) + " " + DirWord(0) + ", " + Decimal(1) + " " + FileWord(1);
    assert Decimal(0) == "0" && Decimal(1) == "1";
    assert DirWord(0) == "directory" && FileWord(1) == "file";
  }
}
