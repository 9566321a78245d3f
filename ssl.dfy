/**
 * The certificate listing: reading the table `letsencrypt:list` prints into
 * certificate records, and ordering them by the days left before expiry.
 */
module Ssl {
  import opened Wrappers
  import opened PyStr
  import opened Models

  // ---------------------------------------------------------------- the timestamp format

  /** A field of one or two ASCII digits whose value lies in `lo..hi`. */
  predicate ShortField(s: string, lo: nat, hi: nat) {
    1 <= |s| <= 2 && AllDigits(s) && lo <= DigitsValue(s) <= hi
  }

  predicate IsLeapYear(y: nat) {
    y % 4 == 0 && (y % 100 != 0 || y % 400 == 0)
  }

  function DaysInMonth(y: nat, m: nat): nat
    requires 1 <= m <= 12
  {
    if m == 2 then (if IsLeapYear(y) then 29 else 28)
    else if m == 4 || m == 6 || m == 9 || m == 11 then 30
    else 31
  }

  /**
   * `datetime.strptime(date + " " + time, "%Y-%m-%d %H:%M:%S")` succeeds:
   * a four-digit year from 1, a month 1-12 and a day that exists in that
   * month, an hour 0-23, a minute and a second 0-59, each other field one or
   * two digits.
   */
  predicate ValidTimestamp(date: string, time: string) {
    var d := Split(date, '-');
    var t := Split(time, ':');
    |d| == 3 && |t| == 3
    && |d[0]| == 4 && AllDigits(d[0]) && DigitsValue(d[0]) >= 1
    && ShortField(d[1], 1, 12)
    && ShortField(d[2], 1, DaysInMonth(DigitsValue(d[0]), DigitsValue(d[1])))
    && ShortField(t[0], 0, 23) && ShortField(t[1], 0, 59) && ShortField(t[2], 0, 59)
  }

  // ---------------------------------------------------------------- one line

  /** The days before the first `d,` of the remaining columns, or 0 when absent or not an integer. */
  function DaysOf(timeParts: string): int {
    match Find(timeParts, "d,")
    case None => 0
    case Some(i) =>
      match ParseInt(Strip(timeParts[..i]))
      case Some(n) => n
      case None => 0
  }

  /** Lines that are blank, rules of dashes, or the table header carry no certificate. */
  predicate IsSkippedLine(l: string) {
    l == [] || StartsWith(l, "---") || Contains(l, "App name")
  }

  /** The certificate one line of the listing describes, if any. */
  function CertificateOf(line: string): (r: Option<SSLCertificate>)
    ensures r.Some? ==> r.value.days_until_renewal == Max(0, r.value.days_until_expiry - 30)
    ensures r.Some? ==> r.value.days_until_renewal >= 0 && r.value.auto_renew
  {
    var l := Strip(line);
    if IsSkippedLine(l) then None
    else
      var parts := SplitWs(l);
      if |parts| < 4 then None
      else if !ValidTimestamp(parts[1], parts[2]) then None
      else
        var days := DaysOf(Join(" ", parts[3..]));
        Some(SSLCertificate(parts[0], parts[1] + " " + parts[2], days, Max(0, days - 30), true))
  }

  /** The certificates of a sequence of lines, in line order. */
  function CertificatesOfLines(lines: seq<string>): seq<SSLCertificate> {
    if lines == [] then []
    else
      var init := CertificatesOfLines(lines[..|lines| - 1]);
      match CertificateOf(lines[|lines| - 1])
      case Some(c) => init + [c]
      case None => init
  }

  /** `_get_ssl_certificates` on the listing's stdout. */
  function CertificatesOf(stdout: string): seq<SSLCertificate> {
    if stdout == [] then [] else CertificatesOfLines(StrippedLines(stdout))
  }

  /** The loop body of `_get_ssl_certificates` for one line: its `continue` guards, then the record. */
  method ReadCertificateLine(raw: string) returns (r: Option<SSLCertificate>)
    ensures r == CertificateOf(raw)
  {
    var line := Strip(raw);
    if line == [] || StartsWith(line, "---") || Contains(line, "App name") {
      return None;
    }
    var parts := SplitWs(line);
    if |parts| < 4 {
      return None;
    }
    var appName := parts[0];
    var expiry := parts[1] + " " + parts[2];
    if !ValidTimestamp(parts[1], parts[2]) {
      return None;
    }
    var days := ReadDays(Join(" ", parts[3..]));
    var renewal := Max(0, days - 30);
    return Some(SSLCertificate(appName, expiry, days, renewal, true));
  }

  /** The days parsed from the remaining columns, defaulting to 0. */
  method ReadDays(timeParts: string) returns (days: int)
    ensures days == DaysOf(timeParts)
  {
    days := 0;
    var at := Find(timeParts, "d,");
    if at.Some? {
      var n := ParseInt(Strip(timeParts[..at.value]));
      if n.Some? {
        days := n.value;
      }
    }
  }

  method ParseCertificates(stdout: string) returns (certs: seq<SSLCertificate>)
    ensures certs == CertificatesOf(stdout)
  {
    certs := [];
    if stdout == [] {
      return;
    }
    var lines := StrippedLines(stdout);
    var i := 0;
    while i < |lines|
      invariant 0 <= i <= |lines|
      invariant certs == CertificatesOfLines(lines[..i])
    {
      CertificatesUpTo(lines, i);
      var c := ReadCertificateLine(lines[i]);
      if c.Some? {
        certs := certs + [c.value];
      }
      i := i + 1;
    }
    assert lines[..|lines|] == lines;
  }

  /** The certificates of the lines up to and including line `i`. */
  lemma CertificatesUpTo(lines: seq<string>, i: nat)
    requires i < |lines|
    ensures CertificateOf(lines[i]).Some? ==>
      CertificatesOfLines(lines[..i + 1]) == CertificatesOfLines(lines[..i]) + [CertificateOf(lines[i]).value]
    ensures CertificateOf(lines[i]).None? ==>
      CertificatesOfLines(lines[..i + 1]) == CertificatesOfLines(lines[..i])
  {
    TakeSnoc(lines, i);
  }

  /** The early return on empty output is only a shortcut: the line loop would also find nothing. */
  lemma EmptyOutputShortcut(stdout: string)
    ensures CertificatesOf(stdout) == CertificatesOfLines(StrippedLines(stdout))
  {
    if stdout == [] {
      var empty: string := [];
      assert StrippedLines(stdout) == [empty];
      assert [empty][..0] == [];
    }
  }

  /**
   * A line is read into a certificate exactly when it is not skipped, has at
   * least four columns and a valid timestamp in columns 1 and 2; the record
   * takes the application from column 0 and the expiry text from columns 1
   * and 2 joined by one space.
   */
  lemma CertificateOfCases(line: string)
    ensures var l := Strip(line); var parts := SplitWs(l);
      CertificateOf(line).Some? <==> !IsSkippedLine(l) && |parts| >= 4 && ValidTimestamp(parts[1], parts[2])
    ensures var parts := SplitWs(Strip(line));
      CertificateOf(line).Some? ==>
        var c := CertificateOf(line).value;
        c.app_name == parts[0] && IsToken(c.app_name)
        && c.expiry_date == parts[1] + " " + parts[2]
        && c.days_until_expiry == DaysOf(Join(" ", parts[3..]))
  {
  }

  /** Every certificate read has a renewal count that is never negative and 30 below the expiry count when that is above 30. */
  lemma {:induction false} CertificatesRenewal(lines: seq<string>)
    ensures |CertificatesOfLines(lines)| <= |lines|
    ensures forall k :: 0 <= k < |CertificatesOfLines(lines)| ==>
      var c := CertificatesOfLines(lines)[k];
      c.days_until_renewal >= 0 && c.auto_renew
      && (c.days_until_expiry > 30 ==> c.days_until_renewal == c.days_until_expiry - 30)
      && (c.days_until_expiry <= 30 ==> c.days_until_renewal == 0)
  {
    if lines != [] {
      CertificatesRenewal(lines[..|lines| - 1]);
    }
  }

  lemma CertificateOfRow(line: string, row: seq<string>)
    requires Strip(line) == line && !IsSkippedLine(line) && SplitWs(line) == row
    requires |row| >= 4 && ValidTimestamp(row[1], row[2])
    ensures var days := DaysOf(Join(" ", row[3..]));
      CertificateOf(line) == Some(SSLCertificate(row[0], row[1] + " " + row[2], days, Max(0, days - 30), true))
  {
    var l := Strip(line);
    assert !IsSkippedLine(l) && SplitWs(l) == row;
  }

  lemma NotStartsWithDash(line: string)
    requires line != [] && line[0] != '-'
    ensures !StartsWith(line, "---")
  {
    if |line| >= 3 {
      assert line[..3][0] == line[0];
    }
  }

  /**
   * A listing row of at least four columns (application, date, time, then
   * the remaining columns) is read as the certificate of that application
   * expiring at that date and time, with the days the remaining columns state.
   */
  lemma CertificateRowRoundTrip(row: seq<string>)
    requires |row| >= 4 && forall k :: 0 <= k < |row| ==> IsToken(row[k])
    requires IsToken(row[0]) && row[0][0] != '-' && ValidTimestamp(row[1], row[2])
    requires !Contains(Join(" ", row), "App name")
    ensures var days := DaysOf(Join(" ", row[3..]));
      CertificateOf(Join(" ", row))
        == Some(SSLCertificate(row[0], row[1] + " " + row[2], days, Max(0, days - 30), true))
  {
    var line := Join(" ", row);
    JoinTokensStripped(row);
    StripStripped(line);
    NotStartsWithDash(line);
    SplitWsJoin(row);
    CertificateOfRow(line, row);
  }

  lemma {:induction false} FindAfter(p: string, pat: string, rest: string)
    requires pat != [] && pat[0] !in p
    ensures Find(p + pat + rest, pat) == Some(|p|)
  {
    var s := p + pat + rest;
    if p == [] {
      assert s == pat + rest;
      assert s[..|pat|] == pat;
    } else {
      assert s[0] == p[0] && p[0] != pat[0];
      assert s[..|pat|][0] == s[0];
      assert s[1..] == p[1..] + pat + rest;
      FindAfter(p[1..], pat, rest);
    }
  }

  /** A count printed before `d,` is read back; without `d,` the count is 0. */
  lemma DaysRoundTrip(n: nat, rest: string)
    ensures DaysOf(NatToString(n) + "d," + rest) == n
  {
    var ds := NatToString(n);
    var t := ds + "d," + rest;
    assert 'd' !in ds by {
      assert forall i :: 0 <= i < |ds| ==> IsDigit(ds[i]);
    }
    FindAfter(ds, "d,", rest);
    assert t[..|ds|] == ds;
    assert IsStripped(ds) by {
      assert IsDigit(ds[0]) && IsDigit(ds[|ds| - 1]);
    }
    StripStripped(ds);
    NatToStringValue(n);
  }

  lemma DaysDefault(t: string)
    requires !Contains(t, "d,")
    ensures DaysOf(t) == 0
  {
  }

  lemma {:induction false} SplitThree(a: string, b: string, c: string, sep: char)
    requires sep !in a && sep !in b && sep !in c
    ensures Split(a + [sep] + (b + [sep] + c), sep) == [a, b, c]
  {
    SplitJoin([a, b, c], sep);
    assert [a, b, c][1..] == [b, c] && [b, c][1..] == [c];
    assert Join([sep], [b, c]) == b + [sep] + c;
    assert Join([sep], [a, b, c]) == a + [sep] + (b + [sep] + c);
  }

  /**
   * A date and a time assembled from their fields are valid exactly when the
   * year has four digits and is at least 1, the month is 1-12, the day exists
   * in that month, the hour is 0-23 and the minute and second are 0-59.
   */
  lemma TimestampFields(y: string, mo: string, d: string, h: string, mi: string, se: string)
    requires '-' !in y && '-' !in mo && '-' !in d && ':' !in h && ':' !in mi && ':' !in se
    ensures ValidTimestamp(y + "-" + mo + "-" + d, h + ":" + mi + ":" + se) <==>
      |y| == 4 && AllDigits(y) && DigitsValue(y) >= 1 && ShortField(mo, 1, 12)
      && ShortField(d, 1, DaysInMonth(DigitsValue(y), DigitsValue(mo)))
      && ShortField(h, 0, 23) && ShortField(mi, 0, 59) && ShortField(se, 0, 59)
  {
    SplitThree(y, mo, d, '-');
    SplitThree(h, mi, se, ':');
    Regroup(y + "-", mo, "-", d);
    Regroup(h + ":", mi, ":", se);
  }

  /** 29 February is a valid day exactly in leap years: every fourth year, but not centuries unless divisible by 400. */
  lemma LeapDay(y: nat)
    ensures DaysInMonth(y, 2) >= 29 <==> IsLeapYear(y)
    ensures IsLeapYear(2024) && !IsLeapYear(2026) && !IsLeapYear(1900) && IsLeapYear(2000)
  {
  }

  // ---------------------------------------------------------------- the sort

  predicate SortedByDays(s: seq<SSLCertificate>) {
    forall i, j :: 0 <= i < j < |s| ==> s[i].days_until_expiry <= s[j].days_until_expiry
  }

  /** Insert `x` after every element whose days do not exceed its own. */
  function InsertByDays(x: SSLCertificate, s: seq<SSLCertificate>): (r: seq<SSLCertificate>)
    ensures |r| == |s| + 1
  {
    if s == [] || x.days_until_expiry < s[0].days_until_expiry then [x] + s
    else [s[0]] + InsertByDays(x, s[1..])
  }

  /** `list.sort(key=days_until_expiry)`: stable insertion of each element in turn. */
  function SortByDays(s: seq<SSLCertificate>): (r: seq<SSLCertificate>)
    ensures |r| == |s|
  {
    if s == [] then [] else InsertByDays(s[|s| - 1], SortByDays(s[..|s| - 1]))
  }

  /** The certificates whose days equal `d`, in order. */
  function WithExpiry(s: seq<SSLCertificate>, d: int): seq<SSLCertificate> {
    if s == [] then []
    else (if s[0].days_until_expiry == d then [s[0]] else []) + WithExpiry(s[1..], d)
  }

  lemma {:induction false} InsertElements(x: SSLCertificate, s: seq<SSLCertificate>)
    ensures multiset(InsertByDays(x, s)) == multiset(s) + multiset{x}
  {
    if !(s == [] || x.days_until_expiry < s[0].days_until_expiry) {
      InsertElements(x, s[1..]);
      assert s == [s[0]] + s[1..];
    }
  }

  /** Every element of the insertion is at least the smaller of `x` and the sorted head. */
  lemma {:induction false} InsertLowerBound(x: SSLCertificate, s: seq<SSLCertificate>, lo: int)
    requires SortedByDays(s)
    requires x.days_until_expiry >= lo
    requires forall k :: 0 <= k < |s| ==> s[k].days_until_expiry >= lo
    ensures forall k :: 0 <= k < |InsertByDays(x, s)| ==> InsertByDays(x, s)[k].days_until_expiry >= lo
  {
    if !(s == [] || x.days_until_expiry < s[0].days_until_expiry) {
      InsertLowerBound(x, s[1..], lo);
    }
  }

  lemma {:induction false} InsertSorted(x: SSLCertificate, s: seq<SSLCertificate>)
    requires SortedByDays(s)
    ensures SortedByDays(InsertByDays(x, s))
  {
    if !(s == [] || x.days_until_expiry < s[0].days_until_expiry) {
      InsertSorted(x, s[1..]);
      InsertLowerBound(x, s[1..], s[0].days_until_expiry);
      var r := InsertByDays(x, s);
      assert r == [s[0]] + InsertByDays(x, s[1..]);
    }
  }

  lemma {:induction false} WithExpiryConcat(a: seq<SSLCertificate>, b: seq<SSLCertificate>, d: int)
    ensures WithExpiry(a + b, d) == WithExpiry(a, d) + WithExpiry(b, d)
  {
    if a == [] {
      assert a + b == b;
    } else {
      assert (a + b)[1..] == a[1..] + b;
      WithExpiryConcat(a[1..], b, d);
      var h := if a[0].days_until_expiry == d then [a[0]] else [];
      assert WithExpiry(a + b, d) == h + WithExpiry(a[1..] + b, d);
      AppendAssoc(h, WithExpiry(a[1..], d), WithExpiry(b, d));
    }
  }

  lemma {:induction false} WithExpiryAbove(s: seq<SSLCertificate>, d: int)
    requires forall k :: 0 <= k < |s| ==> s[k].days_until_expiry > d
    ensures WithExpiry(s, d) == []
  {
    if s != [] {
      WithExpiryAbove(s[1..], d);
    }
  }

  /** Insertion puts `x` after every element with the same days. */
  lemma {:induction false} InsertStable(x: SSLCertificate, s: seq<SSLCertificate>, d: int)
    requires SortedByDays(s)
    ensures WithExpiry(InsertByDays(x, s), d)
      == WithExpiry(s, d) + (if x.days_until_expiry == d then [x] else [])
  {
    if s == [] || x.days_until_expiry < s[0].days_until_expiry {
      assert ([x] + s)[1..] == s;
      if x.days_until_expiry == d {
        WithExpiryAbove(s, d);
      }
    } else {
      var r := [s[0]] + InsertByDays(x, s[1..]);
      assert r[1..] == InsertByDays(x, s[1..]);
      InsertStable(x, s[1..], d);
      var h := if s[0].days_until_expiry == d then [s[0]] else [];
      assert WithExpiry(r, d) == h + WithExpiry(InsertByDays(x, s[1..]), d);
      AppendAssoc(h, WithExpiry(s[1..], d), if x.days_until_expiry == d then [x] else []);
    }
  }

  /** The sorted listing is ordered by days. */
  lemma {:induction false} SortByDaysSorted(s: seq<SSLCertificate>)
    ensures SortedByDays(SortByDays(s))
  {
    if s != [] {
      SortByDaysSorted(s[..|s| - 1]);
      InsertSorted(s[|s| - 1], SortByDays(s[..|s| - 1]));
    }
  }

  /** The sorted listing holds the same certificates. */
  lemma {:induction false} SortByDaysPermutes(s: seq<SSLCertificate>)
    ensures multiset(SortByDays(s)) == multiset(s)
  {
    if s != [] {
      var init, x := s[..|s| - 1], s[|s| - 1];
      assert SortByDays(s) == InsertByDays(x, SortByDays(init));
      SortByDaysPermutes(init);
      InsertElements(x, SortByDays(init));
      MultisetSnoc(s);
    }
  }

  lemma MultisetSnoc<T>(s: seq<T>)
    requires s != []
    ensures multiset(s) == multiset(s[..|s| - 1]) + multiset{s[|s| - 1]}
  {
    assert s == s[..|s| - 1] + [s[|s| - 1]];
  }

  /** Certificates with equal days keep their listing order. */
  lemma {:induction false} SortByDaysStable(s: seq<SSLCertificate>, d: int)
    ensures WithExpiry(SortByDays(s), d) == WithExpiry(s, d)
  {
    if s != [] {
      var init := s[..|s| - 1];
      var x := s[|s| - 1];
      SortByDaysStable(init, d);
      SortByDaysSorted(init);
      InsertStable(x, SortByDays(init), d);
      WithExpiryConcat(init, [x], d);
      assert s == init + [x];
    }
  }

  /** Inserting before the first element with more days. */
  lemma {:induction false} InsertAt(x: SSLCertificate, s: seq<SSLCertificate>, k: nat)
    requires k <= |s|
    requires forall m :: 0 <= m < k ==> s[m].days_until_expiry <= x.days_until_expiry
    requires forall m :: k <= m < |s| ==> s[m].days_until_expiry > x.days_until_expiry
    ensures InsertByDays(x, s) == s[..k] + [x] + s[k..]
  {
    if k == 0 {
      assert s[..0] + [x] + s[0..] == [x] + s;
    } else {
      InsertAt(x, s[1..], k - 1);
      assert s[..k] == [s[0]] + s[1..][..k - 1];
      assert s[k..] == s[1..][k - 1..];
    }
  }

  /** Moves `a[i]` down into the sorted prefix `a[..i]`, past every element with more days. */
  method InsertLast(a: array<SSLCertificate>, i: nat)
    requires i < a.Length && SortedByDays(a[..i])
    modifies a
    ensures a[..i + 1] == InsertByDays(old(a[i]), old(a[..i]))
    ensures a[i + 1..] == old(a[i + 1..])
  {
    ghost var prev := a[..i];
    ghost var tail := a[i + 1..];
    var x := a[i];
    var j := i;
    while j > 0 && a[j - 1].days_until_expiry > x.days_until_expiry
      invariant 0 <= j <= i
      invariant forall m :: 0 <= m < j ==> a[m] == prev[m]
      invariant forall m :: j < m <= i ==> a[m] == prev[m - 1]
      invariant a[i + 1..] == tail
      invariant forall m :: j <= m < i ==> prev[m].days_until_expiry > x.days_until_expiry
    {
      a[j] := a[j - 1];
      j := j - 1;
    }
    a[j] := x;
    ShiftedIsInsert(a[..i + 1], prev, x, j);
  }

  /**
   * The array contents InsertLast leaves behind: the prefix before `j`, then
   * `x`, then the elements from `j` on moved one place right.
   */
  lemma ShiftedIsInsert(b: seq<SSLCertificate>, prev: seq<SSLCertificate>, x: SSLCertificate, j: nat)
    requires |b| == |prev| + 1 && j <= |prev| && SortedByDays(prev)
    requires forall m :: 0 <= m < j ==> b[m] == prev[m]
    requires b[j] == x
    requires forall m :: j < m < |b| ==> b[m] == prev[m - 1]
    requires forall m :: j <= m < |prev| ==> prev[m].days_until_expiry > x.days_until_expiry
    requires j > 0 ==> prev[j - 1].days_until_expiry <= x.days_until_expiry
    ensures b == InsertByDays(x, prev)
  {
    forall m | 0 <= m < j ensures prev[m].days_until_expiry <= x.days_until_expiry {
      assert prev[m].days_until_expiry <= prev[j - 1].days_until_expiry;
    }
    InsertAt(x, prev, j);
    forall m | 0 <= m < |b| ensures b[m] == (prev[..j] + [x] + prev[j..])[m] {
      if m > j {
        assert b[m] == prev[m - 1];
      }
    }
  }

  lemma TakeSnoc<T>(s: seq<T>, i: nat)
    requires i < |s|
    ensures s[..i + 1][..i] == s[..i] && s[..i + 1][i] == s[i]
  {
  }

  /** Stable in-place insertion sort by days until expiry. */
  method SortByExpiry(a: array<SSLCertificate>)
    modifies a
    ensures a[..] == SortByDays(old(a[..]))
  {
    ghost var orig := a[..];
    var i := 0;
    while i < a.Length
      invariant 0 <= i <= a.Length
      invariant a[..i] == SortByDays(orig[..i])
      invariant a[i..] == orig[i..]
    {
      SortByDaysSorted(orig[..i]);
      assert a[i] == orig[i];
      InsertLast(a, i);
      TakeSnoc(orig, i);
      i := i + 1;
    }
    assert orig[..a.Length] == orig;
  }

  /** `list_certificates`: the listing read from stdout, soonest expiry first. */
  method ListCertificates(stdout: string) returns (certs: seq<SSLCertificate>)
    ensures certs == SortByDays(CertificatesOf(stdout))
  {
    var parsed := ParseCertificates(stdout);
    var a := new SSLCertificate[|parsed|](i requires 0 <= i < |parsed| => parsed[i]);
    assert a[..] == parsed;
    SortByExpiry(a);
    certs := a[..];
  }
}
