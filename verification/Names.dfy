/** Names in their lexicographic order, as the rotation sorts them, and the names backups are given. */
module Names {
  import opened Common

  predicate Less(a: string, b: string) {
    if |b| == 0 then false
    else if |a| == 0 then true
    else a[0] < b[0] || (a[0] == b[0] && Less(a[1..], b[1..]))
  }

  lemma {:induction false} LessIrreflexive(a: string)
    ensures !Less(a, a)
  {
    if a != [] { LessIrreflexive(a[1..]); }
  }

  lemma {:induction false} LessTransitive(a: string, b: string, c: string)
    requires Less(a, b) && Less(b, c)
    ensures Less(a, c)
  {
    if a != [] && a[0] == b[0] && b[0] == c[0] { LessTransitive(a[1..], b[1..], c[1..]); }
  }

  lemma {:induction false} LessTotal(a: string, b: string)
    ensures a == b || Less(a, b) || Less(b, a)
  {
    if a != [] && b != [] && a[0] == b[0] {
      LessTotal(a[1..], b[1..]);
      assert a == [a[0]] + a[1..] && b == [b[0]] + b[1..];
    }
  }

  /** A common prefix does not matter. */
  lemma {:induction false} LessAfterPrefix(p: string, a: string, b: string)
    ensures Less(p + a, p + b) == Less(a, b)
  {
    if p == [] {
      assert p + a == a && p + b == b;
    } else {
      LessAfterPrefix(p[1..], a, b);
      assert (p + a)[1..] == p[1..] + a && (p + b)[1..] == p[1..] + b;
    }
  }

  /** A difference in fields of equal width decides, whatever follows. */
  lemma {:induction false} LessDecidedEarly(a: string, b: string, x: string, y: string)
    requires |a| == |b| && Less(a, b)
    ensures Less(a + x, b + y)
  {
    if a[0] == b[0] {
      LessDecidedEarly(a[1..], b[1..], x, y);
    }
    assert (a + x)[1..] == a[1..] + x && (b + y)[1..] == b[1..] + y;
  }

  // --- Sorting --------------------------------------------------------------------------------------------------

  predicate Increasing(s: seq<string>) {
    forall i, j :: 0 <= i < j < |s| ==> Less(s[i], s[j])
  }

  function Elements(s: seq<string>): (e: set<string>) {
    set n | n in s
  }

  function Insert(s: seq<string>, n: string): (r: seq<string>) {
    if s == [] then [n]
    else if Less(n, s[0]) then [n] + s
    else [s[0]] + Insert(s[1..], n)
  }

  function Sort(s: seq<string>): (r: seq<string>) {
    if s == [] then [] else Insert(Sort(s[1..]), s[0])
  }

  lemma {:induction false} InsertKeepsOrder(s: seq<string>, n: string)
    requires Increasing(s) && n !in s
    ensures Increasing(Insert(s, n)) && Elements(Insert(s, n)) == Elements(s) + {n} && |Insert(s, n)| == |s| + 1
  {
    if s == [] {
    } else if Less(n, s[0]) {
      forall j | 0 <= j < |s| ensures Less(n, s[j]) {
        if j > 0 { LessTransitive(n, s[0], s[j]); }
      }
    } else {
      LessTotal(n, s[0]);
      InsertKeepsOrder(s[1..], n);
      var rest := Insert(s[1..], n);
      forall j | 0 <= j < |rest| ensures Less(s[0], rest[j]) {
        assert rest[j] in Elements(rest);
      }
      assert Elements(s) == Elements(s[1..]) + {s[0]};
      assert Elements([s[0]] + rest) == {s[0]} + Elements(rest);
    }
  }

  /** Sorting distinct names gives them all in strictly increasing order. */
  lemma {:induction false} SortSorts(s: seq<string>)
    requires forall i, j :: 0 <= i < j < |s| ==> s[i] != s[j]
    ensures Increasing(Sort(s)) && Elements(Sort(s)) == Elements(s) && |Sort(s)| == |s|
  {
    if s != [] {
      SortSorts(s[1..]);
      assert s[0] !in Elements(s[1..]);
      assert s[0] !in Elements(Sort(s[1..]));
      InsertKeepsOrder(Sort(s[1..]), s[0]);
      assert Elements(s) == Elements(s[1..]) + {s[0]};
    }
  }

  // --- Rank ------------------------------------------------------------------------------------------------------

  /** The names of `all` above `n`. */
  function Above(all: set<string>, n: string): (r: set<string>) {
    set m | m in all && Less(n, m)
  }

  lemma {:induction false} CardinalityOfIncreasing(s: seq<string>)
    requires Increasing(s)
    ensures |Elements(s)| == |s|
  {
    if s != [] {
      CardinalityOfIncreasing(s[1..]);
      assert s[0] !in s[1..] by {
        if s[0] in s[1..] {
          LessIrreflexive(s[0]);
          assert false;
        }
      }
      assert Elements(s) == Elements(s[1..]) + {s[0]};
    }
  }

  /** In sorted order, the number of names above a position is the number of positions after it. */
  lemma RankInOrder(s: seq<string>, i: nat)
    requires Increasing(s) && i < |s|
    ensures |Above(Elements(s), s[i])| == |s| - 1 - i
  {
    var rest := s[i + 1..];
    assert Above(Elements(s), s[i]) == Elements(rest) by {
      forall m | m in Above(Elements(s), s[i]) ensures m in Elements(rest) {
        var j :| 0 <= j < |s| && s[j] == m;
        if j <= i {
          if j < i { LessTransitive(s[i], s[j], s[i]); }
          LessIrreflexive(s[i]);
          assert false;
        }
        assert rest[j - i - 1] == m;
      }
      forall m | m in Elements(rest) ensures m in Above(Elements(s), s[i]) {
        var j :| 0 <= j < |rest| && rest[j] == m;
        assert s[i + 1 + j] == m;
      }
    }
    CardinalityOfIncreasing(rest);
  }

  /** A lower name has at least as many names above it. */
  lemma AboveIsAntitone(all: set<string>, m: string, n: string)
    requires Less(m, n)
    ensures |Above(all, n)| <= |Above(all, m)|
  {
    forall x | x in Above(all, n) ensures x in Above(all, m) { LessTransitive(m, n, x); }
    SubsetSize(Above(all, n), Above(all, m));
  }

  // --- Backup names ---------------------------------------------------------------------------------------------------

  /** A UTC calendar second. */
  datatype Stamp = Stamp(year: nat, month: nat, day: nat, hour: nat, minute: nat, second: nat)

  predicate ValidStamp(t: Stamp) {
    1 <= t.month <= 12 && 1 <= t.day <= 31 && t.hour < 24 && t.minute < 60 && t.second < 60
  }

  predicate Before(a: Stamp, b: Stamp) {
    || a.year < b.year
    || (a.year == b.year && (
          || a.month < b.month
          || (a.month == b.month && (
                || a.day < b.day
                || (a.day == b.day && (
                      || a.hour < b.hour
                      || (a.hour == b.hour && (
                            || a.minute < b.minute
                            || (a.minute == b.minute && a.second < b.second)))))))))
  }

  function Digit(d: nat): (c: char)
    requires d < 10
  {
    '0' + d as char
  }

  /** Decimal digits of `n`, zero padded to `width`. */
  function Padded(n: nat, width: nat): (s: string)
    ensures |s| == width
  {
    if width == 0 then "" else Padded(n / 10, width - 1) + [Digit(n % 10)]
  }

  function Pow10(n: nat): (p: nat) {
    if n == 0 then 1 else 10 * Pow10(n - 1)
  }

  lemma {:induction false} PaddedIsOrdered(x: nat, y: nat, width: nat)
    requires x < y < Pow10(width)
    ensures Less(Padded(x, width), Padded(y, width))
  {
    var p, q := Padded(x / 10, width - 1), Padded(y / 10, width - 1);
    var c, d := [Digit(x % 10)], [Digit(y % 10)];
    if x / 10 < y / 10 {
      PaddedIsOrdered(x / 10, y / 10, width - 1);
      LessDecidedEarly(p, q, c, d);
    } else {
      LessAfterPrefix(p, c, d);
    }
  }

  /** The number of decimal digits of `n`. */
  function Width(n: nat): (w: nat) {
    if n < 10 then 1 else 1 + Width(n / 10)
  }

  /** The year as the time layout prints it: at least four digits. */
  function YearDigits(year: nat): (s: string) {
    Padded(year, Max(4, Width(year)))
  }

  lemma FourDigitYear(year: nat)
    requires year <= 9999
    ensures YearDigits(year) == Padded(year, 4)
  {
    var tens, hundreds := year / 10, year / 10 / 10;
    assert Width(hundreds) <= 2;
    assert Width(tens) <= 3;
  }

  function AfterYear(t: Stamp, random: string): (s: string) {
    Padded(t.month, 2) + (Padded(t.day, 2) + ("T" + (Padded(t.hour, 2) +
    (Padded(t.minute, 2) + (Padded(t.second, 2) + ("Z-" + random))))))
  }

  const BACKUP_PREFIX := "backup-"

  // The two files of a backup.
  const DUMP := "database.dump"
  const MANIFEST := "manifest.json"

  function BackupName(t: Stamp, random: string): (name: string) {
    BACKUP_PREFIX + (YearDigits(t.year) + AfterYear(t, random))
  }

  /** Fields of equal width: an earlier field decides, an equal one passes the comparison on. */
  lemma FieldOrder(x: nat, y: nat, width: nat, rest: string, rest': string)
    requires x < Pow10(width) && y < Pow10(width)
    requires x < y || (x == y && Less(rest, rest'))
    ensures Less(Padded(x, width) + rest, Padded(y, width) + rest')
  {
    if x < y {
      PaddedIsOrdered(x, y, width);
      LessDecidedEarly(Padded(x, width), Padded(y, width), rest, rest');
    } else {
      LessAfterPrefix(Padded(x, width), rest, rest');
    }
  }

  ghost predicate BeforeInDay(a: Stamp, b: Stamp) {
    || a.hour < b.hour
    || (a.hour == b.hour && (a.minute < b.minute || (a.minute == b.minute && a.second < b.second)))
  }

  function Clock(t: Stamp, random: string): (s: string) {
    Padded(t.hour, 2) + (Padded(t.minute, 2) + (Padded(t.second, 2) + ("Z-" + random)))
  }

  lemma ClockOrder(a: Stamp, b: Stamp, r: string, r': string)
    requires ValidStamp(a) && ValidStamp(b) && BeforeInDay(a, b)
    ensures Less(Clock(a, r), Clock(b, r'))
  {
    assert Pow10(2) == 100;
    var s, s' := "Z-" + r, "Z-" + r';
    if a.hour == b.hour && a.minute == b.minute { FieldOrder(a.second, b.second, 2, s, s'); }
    var m, m' := Padded(a.second, 2) + s, Padded(b.second, 2) + s';
    if a.hour == b.hour { FieldOrder(a.minute, b.minute, 2, m, m'); }
    FieldOrder(a.hour, b.hour, 2, Padded(a.minute, 2) + m, Padded(b.minute, 2) + m');
  }

  lemma AfterYearOrder(a: Stamp, b: Stamp, r: string, r': string)
    requires ValidStamp(a) && ValidStamp(b) && a.year == b.year && Before(a, b)
    ensures Less(AfterYear(a, r), AfterYear(b, r'))
  {
    assert Pow10(2) == 100;
    var t, t' := "T" + Clock(a, r), "T" + Clock(b, r');
    if a.month == b.month && a.day == b.day {
      ClockOrder(a, b, r, r');
      LessAfterPrefix("T", Clock(a, r), Clock(b, r'));
    }
    if a.month == b.month { FieldOrder(a.day, b.day, 2, t, t'); }
    FieldOrder(a.month, b.month, 2, Padded(a.day, 2) + t, Padded(b.day, 2) + t');
  }

  /** Up to the year 9999, a backup created in an earlier second has the lower name. */
  lemma NameOrderRefinesTime(a: Stamp, b: Stamp, r: string, r': string)
    requires ValidStamp(a) && ValidStamp(b) && a.year <= 9999 && b.year <= 9999 && Before(a, b)
    ensures Less(BackupName(a, r), BackupName(b, r'))
  {
    assert Pow10(4) == 10000 by { assert Pow10(2) == 100; }
    FourDigitYear(a.year);
    FourDigitYear(b.year);
    if a.year == b.year { AfterYearOrder(a, b, r, r'); }
    FieldOrder(a.year, b.year, 4, AfterYear(a, r), AfterYear(b, r'));
    LessAfterPrefix(BACKUP_PREFIX, YearDigits(a.year) + AfterYear(a, r), YearDigits(b.year) + AfterYear(b, r'));
  }

  ghost predicate OrderedUpTo(limit: nat) {
    forall a: Stamp, b: Stamp, r: string, r': string ::
      ValidStamp(a) && ValidStamp(b) && a.year <= limit && b.year <= limit && Before(a, b) ==>
        Less(BackupName(a, r), BackupName(b, r'))
  }

  lemma FirstDigit(n: nat, width: nat)
    requires width >= 2
    ensures Padded(n, width)[0] == Padded(n / 10, width - 1)[0]
  {
  }

  lemma LastFour(year: nat)
    requires year == 9999
    ensures |YearDigits(year)| == 4 && YearDigits(year)[0] == '9'
  {
    FourDigitYear(year);
    FirstDigit(year, 4);
    FirstDigit(year / 10, 3);
    FirstDigit(year / 10 / 10, 2);
  }

  lemma FirstFive(year: nat)
    requires year == 10000
    ensures |YearDigits(year)| == 5 && YearDigits(year)[0] == '1'
  {
    var thousand, hundred := year / 10, year / 10 / 10;
    assert Width(hundred) == 3;
    assert Width(thousand) == 4;
    FirstDigit(year, 5);
    FirstDigit(thousand, 4);
    FirstDigit(hundred, 3);
    FirstDigit(hundred / 10, 2);
  }

  lemma NotLessAfterPrefix(prefix: string, x: string, y: string)
    requires x != "" && y != "" && y[0] < x[0]
    ensures !Less(prefix + x, prefix + y)
  {
    LessAfterPrefix(prefix, x, y);
  }

  /** The first second of the year 10000 has a lower name than the last one before it. */
  lemma FiveDigitYearSortsFirst()
    ensures var a, b := Stamp(9999, 12, 31, 23, 59, 59), Stamp(10000, 1, 1, 0, 0, 0);
            ValidStamp(a) && ValidStamp(b) && Before(a, b) && !Less(BackupName(a, ""), BackupName(b, ""))
  {
    var a, b := Stamp(9999, 12, 31, 23, 59, 59), Stamp(10000, 1, 1, 0, 0, 0);
    var x, y := YearDigits(9999) + AfterYear(a, ""), YearDigits(10000) + AfterYear(b, "");
    LastFour(a.year);
    FirstFive(b.year);
    NotLessAfterPrefix(BACKUP_PREFIX, x, y);
  }

  /** The layout keeps time order exactly as long as years have four digits. */
  lemma NameOrderIffFourDigitYears(limit: nat)
    ensures OrderedUpTo(limit) <==> limit <= 9999
  {
    if limit <= 9999 {
      forall a: Stamp, b: Stamp, r: string, r': string |
        ValidStamp(a) && ValidStamp(b) && a.year <= limit && b.year <= limit && Before(a, b)
        ensures Less(BackupName(a, r), BackupName(b, r'))
      {
        NameOrderRefinesTime(a, b, r, r');
      }
    } else {
      FiveDigitYearSortsFirst();
    }
  }
}
