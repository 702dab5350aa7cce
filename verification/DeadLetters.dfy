/** The dead-letter directory of natsbus/reliable.go: its file names and its listing.

    A directory maps file names to what they hold.  Record files are named by
    creation time and id, and end in .json.  The encoding of a record is assumed
    to round-trip.
 */
module DeadLetters {
  import opened Sets
  import opened Text

  // ---------------------------------------------------------------------------
  // File names

  // A UTC time, by its fields.
  datatype Stamp = Stamp(year: nat, month: nat, day: nat, hour: nat, minute: nat, second: nat, nano: nat)

  function Fields(t: Stamp): seq<nat> { [t.year, t.month, t.day, t.hour, t.minute, t.second, t.nano] }

  // The layout 20060102T150405.000000000Z0700: widths, and what follows each field.
  const WIDTHS: seq<nat> := [4, 2, 2, 2, 2, 2, 9]
  const MARKS: seq<string> := ["", "", "T", "", "", ".", "Z"]

  function Pow10(w: nat): nat { if w == 0 then 1 else 10 * Pow10(w - 1) }

  function Digit(d: nat): char
    requires d < 10
  {
    '0' + d as char
  }

  // Decimal digits, zero-padded to at least w.
  function Decimal(n: nat, w: nat): string {
    if n < 10 && w <= 1 then [Digit(n)] else Decimal(n / 10, if w == 0 then 0 else w - 1) + [Digit(n % 10)]
  }

  function Layout(vs: seq<nat>, ws: seq<nat>, marks: seq<string>): string
    requires |vs| == |ws| == |marks|
  {
    if vs == [] then "" else Decimal(vs[0], ws[0]) + marks[0] + Layout(vs[1..], ws[1..], marks[1..])
  }

  function FileName(t: Stamp, id: string): string {
    Layout(Fields(t), WIDTHS, MARKS) + ("-" + id + ".json")
  }

  // Order of lists by the first place they differ in.
  predicate Earlier(a: seq<nat>, b: seq<nat>)
    requires |a| == |b|
  {
    a != [] && (a[0] < b[0] || (a[0] == b[0] && Earlier(a[1..], b[1..])))
  }

  predicate InRange(vs: seq<nat>, ws: seq<nat>)
    requires |vs| == |ws|
  {
    forall i :: 0 <= i < |vs| ==> ws[i] > 0 && vs[i] < Pow10(ws[i])
  }

  // --- The Gregorian calendar

  predicate Leap(year: nat) { year % 4 == 0 && (year % 100 != 0 || year % 400 == 0) }

  function DaysInMonth(year: nat, month: nat): nat {
    if month == 2 then if Leap(year) then 29 else 28
    else if month in {4, 6, 9, 11} then 30
    else 31
  }

  function DaysInYear(year: nat): nat { if Leap(year) then 366 else 365 }

  // Days from the first of January of year 0 to that of a year, and from there to
  // the first of a month.
  function DaysBeforeYear(year: nat): nat {
    if year == 0 then 0 else DaysBeforeYear(year - 1) + DaysInYear(year - 1)
  }

  function DaysBeforeMonth(year: nat, month: nat): nat {
    if month <= 1 then 0 else DaysBeforeMonth(year, month - 1) + DaysInMonth(year, month - 1)
  }

  predicate Calendar(t: Stamp) {
    && 1 <= t.month <= 12 && 1 <= t.day <= DaysInMonth(t.year, t.month)
    && t.hour <= 23 && t.minute <= 59 && t.second <= 59 && t.nano <= 999_999_999
  }

  predicate Printable(t: Stamp) { t.year <= 9999 && Calendar(t) }

  function DayNumber(t: Stamp): int {
    DaysBeforeYear(t.year) + DaysBeforeMonth(t.year, t.month) + t.day - 1
  }

  // Nanoseconds since the beginning of year 0, UTC.
  function Instant(t: Stamp): int {
    (((DayNumber(t) * 24 + t.hour) * 60 + t.minute) * 60 + t.second) * 1_000_000_000 + t.nano
  }

  lemma {:induction false} YearsFollow(y: nat, z: nat)
    requires y < z
    ensures DaysBeforeYear(y) + DaysInYear(y) <= DaysBeforeYear(z)
    decreases z
  {
    if y < z - 1 {
      YearsFollow(y, z - 1);
    }
  }

  lemma {:induction false} MonthsFollow(year: nat, m: nat, n: nat)
    requires 1 <= m < n
    ensures DaysBeforeMonth(year, m) + DaysInMonth(year, m) <= DaysBeforeMonth(year, n)
    decreases n
  {
    if m < n - 1 {
      MonthsFollow(year, m, n - 1);
    }
  }

  // The months make up the year.
  lemma MonthsFillYear(year: nat)
    ensures DaysBeforeMonth(year, 13) == DaysInYear(year)
  {
    assert DaysBeforeMonth(year, 2) == 31;
    assert DaysBeforeMonth(year, 3) == DaysInYear(year) - 306;
    assert DaysBeforeMonth(year, 5) == DaysInYear(year) - 245;
    assert DaysBeforeMonth(year, 7) == DaysInYear(year) - 184;
    assert DaysBeforeMonth(year, 9) == DaysInYear(year) - 122;
    assert DaysBeforeMonth(year, 11) == DaysInYear(year) - 61;
  }

  // A date is within its year.
  lemma DayInYear(t: Stamp)
    requires Calendar(t)
    ensures DaysBeforeYear(t.year) <= DayNumber(t) < DaysBeforeYear(t.year) + DaysInYear(t.year)
  {
    MonthsFollow(t.year, t.month, 13);
    MonthsFillYear(t.year);
  }

  // x before y, or level and a before b.
  predicate Then(x: int, y: int, a: int, b: int) { x < y || (x == y && a < b) }

  predicate SameDay(t: Stamp, u: Stamp) { t.year == u.year && t.month == u.month && t.day == u.day }

  predicate EarlierDay(t: Stamp, u: Stamp) {
    t.year < u.year || (t.year == u.year && Then(t.month, u.month, t.day, u.day))
  }

  lemma DaysForward(t: Stamp, u: Stamp)
    requires Calendar(t) && Calendar(u) && EarlierDay(t, u)
    ensures DayNumber(t) < DayNumber(u)
  {
    if t.year < u.year {
      DayInYear(t);
      DayInYear(u);
      YearsFollow(t.year, u.year);
    } else if t.month < u.month {
      MonthsFollow(t.year, t.month, u.month);
    }
  }

  // Dates are in the order of their fields.
  lemma DayOrder(t: Stamp, u: Stamp)
    requires Calendar(t) && Calendar(u)
    ensures DayNumber(t) < DayNumber(u) <==> EarlierDay(t, u)
    ensures DayNumber(t) == DayNumber(u) <==> SameDay(t, u)
  {
    if EarlierDay(t, u) {
      DaysForward(t, u);
    } else if EarlierDay(u, t) {
      DaysForward(u, t);
    } else {
      assert SameDay(t, u);
    }
  }

  // --- The order of times

  lemma Clock(d: int, e: int, t: Stamp, u: Stamp)
    requires Calendar(t) && Calendar(u)
    ensures var h, i := d * 24 + t.hour, e * 24 + u.hour;
      && (h < i <==> Then(d, e, t.hour, u.hour)) && (h == i <==> d == e && t.hour == u.hour)
      && (h * 60 + t.minute < i * 60 + u.minute <==> Then(h, i, t.minute, u.minute))
      && (h * 60 + t.minute == i * 60 + u.minute <==> h == i && t.minute == u.minute)
  {
  }

  lemma Seconds(m: int, n: int, t: Stamp, u: Stamp)
    requires Calendar(t) && Calendar(u)
    ensures var x, y := m * 60 + t.second, n * 60 + u.second;
      && (x < y <==> Then(m, n, t.second, u.second)) && (x == y <==> m == n && t.second == u.second)
      && (x * 1_000_000_000 + t.nano < y * 1_000_000_000 + u.nano <==> Then(x, y, t.nano, u.nano))
  {
  }

  lemma EarlierFrom(a: seq<nat>, b: seq<nat>, i: nat)
    requires |a| == |b| && i < |a|
    ensures Earlier(a[i..], b[i..]) <==> a[i] < b[i] || (a[i] == b[i] && Earlier(a[i + 1..], b[i + 1..]))
  {
    assert a[i..][1..] == a[i + 1..] && b[i..][1..] == b[i + 1..];
  }

  predicate EarlierInDay(t: Stamp, u: Stamp) {
    || t.hour < u.hour
    || (t.hour == u.hour && (t.minute < u.minute || (t.minute == u.minute && Then(t.second, u.second, t.nano, u.nano))))
  }

  lemma FieldsOfDay(t: Stamp, u: Stamp)
    ensures Earlier(Fields(t)[3..], Fields(u)[3..]) <==> EarlierInDay(t, u)
  {
    var a, b := Fields(t), Fields(u);
    assert a[7..] == [] && b[7..] == [];
    EarlierFrom(a, b, 3);
    EarlierFrom(a, b, 4);
    EarlierFrom(a, b, 5);
    EarlierFrom(a, b, 6);
  }

  lemma FieldsOfDate(t: Stamp, u: Stamp)
    ensures Earlier(Fields(t), Fields(u)) <==>
      EarlierDay(t, u) || (SameDay(t, u) && Earlier(Fields(t)[3..], Fields(u)[3..]))
  {
    var a, b := Fields(t), Fields(u);
    assert a[0..] == a && b[0..] == b;
    EarlierFrom(a, b, 0);
    EarlierFrom(a, b, 1);
    EarlierFrom(a, b, 2);
  }

  lemma TimeOfDay(d: int, e: int, t: Stamp, u: Stamp)
    requires Calendar(t) && Calendar(u)
    ensures ((((d * 24 + t.hour) * 60 + t.minute) * 60 + t.second) * 1_000_000_000 + t.nano
           < (((e * 24 + u.hour) * 60 + u.minute) * 60 + u.second) * 1_000_000_000 + u.nano)
      <==> d < e || (d == e && EarlierInDay(t, u))
  {
    Clock(d, e, t, u);
    Seconds((d * 24 + t.hour) * 60 + t.minute, (e * 24 + u.hour) * 60 + u.minute, t, u);
  }

  // Comparing fields from the year down is comparing instants.
  lemma FieldsChronological(t: Stamp, u: Stamp)
    requires Calendar(t) && Calendar(u)
    ensures Earlier(Fields(t), Fields(u)) <==> Instant(t) < Instant(u)
  {
    FieldsOfDate(t, u);
    FieldsOfDay(t, u);
    DayOrder(t, u);
    TimeOfDay(DayNumber(t), DayNumber(u), t, u);
  }

  // The number a string of digits stands for.
  function Value(s: string): int {
    if s == [] then 0 else Value(s[..|s| - 1]) * 10 + (s[|s| - 1] as int - '0' as int)
  }

  lemma {:induction false} DecimalValue(n: nat, w: nat)
    ensures Value(Decimal(n, w)) == n && |Decimal(n, w)| >= w
    decreases n, w
  {
    if n >= 10 || w > 1 {
      var d := Decimal(n / 10, if w == 0 then 0 else w - 1);
      DecimalValue(n / 10, if w == 0 then 0 else w - 1);
      assert (d + [Digit(n % 10)])[..|d|] == d;
    }
  }

  lemma LayoutFrom(vs: seq<nat>, ws: seq<nat>, marks: seq<string>, i: nat)
    requires |vs| == |ws| == |marks| && i < |vs|
    ensures Layout(vs[i..], ws[i..], marks[i..])
         == Decimal(vs[i], ws[i]) + (marks[i] + Layout(vs[i + 1..], ws[i + 1..], marks[i + 1..]))
  {
    assert vs[i..][1..] == vs[i + 1..] && ws[i..][1..] == ws[i + 1..] && marks[i..][1..] == marks[i + 1..];
  }

  lemma FieldFrom(t: Stamp, i: nat, mark: string, rest: string)
    requires i < 7 && mark == MARKS[i] && rest == Layout(Fields(t)[i + 1..], WIDTHS[i + 1..], MARKS[i + 1..])
    ensures Layout(Fields(t)[i..], WIDTHS[i..], MARKS[i..]) == Decimal(Fields(t)[i], WIDTHS[i]) + (mark + rest)
  {
    LayoutFrom(Fields(t), WIDTHS, MARKS, i);
  }

  lemma TimeLayout(t: Stamp)
    ensures var seconds := Decimal(t.second, 2) + ("." + (Decimal(t.nano, 9) + "Z"));
      Layout(Fields(t)[3..], WIDTHS[3..], MARKS[3..]) == Decimal(t.hour, 2) + (Decimal(t.minute, 2) + seconds)
  {
    assert Fields(t)[7..] == [];
    FieldFrom(t, 6, "Z", "");
    var nanos := Decimal(t.nano, 9) + "Z";
    assert "Z" + "" == "Z";
    FieldFrom(t, 5, ".", nanos);
    var seconds := Decimal(t.second, 2) + ("." + nanos);
    FieldFrom(t, 4, "", seconds);
    assert "" + seconds == seconds;
    var minutes := Decimal(t.minute, 2) + seconds;
    FieldFrom(t, 3, "", minutes);
    assert "" + minutes == minutes;
  }

  // 20060102T150405.000000000Z-id.json: four digits of year, two each down to the
  // second, nine of nanoseconds.
  lemma NameLayout(t: Stamp, id: string)
    ensures var seconds := Decimal(t.second, 2) + ("." + (Decimal(t.nano, 9) + "Z"));
      var time := Decimal(t.hour, 2) + (Decimal(t.minute, 2) + seconds);
      var date := Decimal(t.year, 4) + (Decimal(t.month, 2) + (Decimal(t.day, 2) + ("T" + time)));
      FileName(t, id) == date + ("-" + id + ".json")
  {
    TimeLayout(t);
    var time := Layout(Fields(t)[3..], WIDTHS[3..], MARKS[3..]);
    FieldFrom(t, 2, "T", time);
    var day := Decimal(t.day, 2) + ("T" + time);
    FieldFrom(t, 1, "", day);
    assert "" + day == day;
    var month := Decimal(t.month, 2) + day;
    FieldFrom(t, 0, "", month);
    assert "" + month == month;
    assert Fields(t)[0..] == Fields(t) && WIDTHS[0..] == WIDTHS && MARKS[0..] == MARKS;
  }

  lemma {:induction false} FixedWidth(n: nat, w: nat)
    requires w > 0 && n < Pow10(w)
    ensures |Decimal(n, w)| == w
  {
    if w > 1 {
      FixedWidth(n / 10, w - 1);
    }
  }

  lemma LastDigit(a: string, b: string, c: char, d: char)
    requires |a| == |b|
    ensures Less(a + [c], b + [d]) <==> Less(a, b) || (a == b && c < d)
  {
    if a == b {
      LessAfterPrefix(a, [c], [d]);
      LessTotal(a, a);
    } else {
      LessByPrefix(a, b, [c], [d]);
    }
  }

  // Numbers of one width sort as their digits do.
  lemma {:induction false} DecimalOrder(m: nat, n: nat, w: nat)
    requires w > 0 && m < Pow10(w) && n < Pow10(w)
    ensures Less(Decimal(m, w), Decimal(n, w)) <==> m < n
    ensures Decimal(m, w) == Decimal(n, w) <==> m == n
  {
    if w > 1 {
      DecimalOrder(m / 10, n / 10, w - 1);
      FixedWidth(m / 10, w - 1);
      FixedWidth(n / 10, w - 1);
      LastDigit(Decimal(m / 10, w - 1), Decimal(n / 10, w - 1), Digit(m % 10), Digit(n % 10));
      SameTail(Decimal(m / 10, w - 1), Decimal(n / 10, w - 1), Digit(m % 10), Digit(n % 10));
    } else {
      LastDigit([], [], Digit(m), Digit(n));
      assert [] + [Digit(m)] == [Digit(m)] && [] + [Digit(n)] == [Digit(n)];
    }
  }

  lemma SameTail(a: string, b: string, c: char, d: char)
    ensures a + [c] == b + [d] <==> a == b && c == d
  {
    if a + [c] == b + [d] {
      assert (a + [c])[..|a|] == a && (b + [d])[..|b|] == b;
      assert (a + [c])[|a|] == c && (b + [d])[|b|] == d;
    }
  }

  // Two layouts of different values sort by the values, whatever follows them.
  lemma {:induction false} LayoutOrder(a: seq<nat>, b: seq<nat>, ws: seq<nat>, marks: seq<string>, x: string, y: string)
    requires |a| == |b| == |ws| == |marks| && InRange(a, ws) && InRange(b, ws) && a != b
    ensures Less(Layout(a, ws, marks) + x, Layout(b, ws, marks) + y) <==> Earlier(a, b)
  {
    var p, q := Decimal(a[0], ws[0]), Decimal(b[0], ws[0]);
    var a', b' := Layout(a[1..], ws[1..], marks[1..]), Layout(b[1..], ws[1..], marks[1..]);
    DecimalOrder(a[0], b[0], ws[0]);
    FixedWidth(a[0], ws[0]);
    FixedWidth(b[0], ws[0]);
    assert Layout(a, ws, marks) + x == p + (marks[0] + (a' + x));
    assert Layout(b, ws, marks) + y == q + (marks[0] + (b' + y));
    if a[0] == b[0] {
      assert a == [a[0]] + a[1..] && b == [b[0]] + b[1..];
      LessAfterPrefix(p, marks[0] + (a' + x), marks[0] + (b' + y));
      LessAfterPrefix(marks[0], a' + x, b' + y);
      LayoutOrder(a[1..], b[1..], ws[1..], marks[1..], x, y);
    } else {
      LessByPrefix(p, q, marks[0] + (a' + x), marks[0] + (b' + y));
    }
  }

  lemma PrintableInRange(t: Stamp)
    requires Printable(t)
    ensures InRange(Fields(t), WIDTHS)
  {
    assert Pow10(2) == 100 && Pow10(4) == 10_000;
    assert Pow10(9) == 1_000_000_000 by { assert Pow10(5) == 100_000 && Pow10(7) == 10_000_000; }
  }

  // Sorting file names is sorting by creation time, for years 0 to 9999; names of
  // one instant sort by id.
  lemma NameOrder(t: Stamp, u: Stamp, i: string, j: string)
    requires Printable(t) && Printable(u)
    ensures t != u ==> (Less(FileName(t, i), FileName(u, j)) <==> Instant(t) < Instant(u))
    ensures t == u ==> (Less(FileName(t, i), FileName(u, j)) <==> Less(i + ".json", j + ".json"))
  {
    PrintableInRange(t);
    PrintableInRange(u);
    FieldsChronological(t, u);
    if t != u {
      assert Fields(t) != Fields(u);
      LayoutOrder(Fields(t), Fields(u), WIDTHS, MARKS, "-" + i + ".json", "-" + j + ".json");
    } else {
      var p := Layout(Fields(t), WIDTHS, MARKS);
      LessAfterPrefix(p, "-" + i + ".json", "-" + j + ".json");
      assert "-" + i + ".json" == "-" + (i + ".json") && "-" + j + ".json" == "-" + (j + ".json");
      LessAfterPrefix("-", i + ".json", j + ".json");
    }
  }

  // Past year 9999 the order is lost: five digits sort below four.
  lemma YearOverflow(t: Stamp, u: Stamp, i: string, j: string)
    requires t.year == 10_000 && u.year == 9_999 && Calendar(t) && Calendar(u)
    ensures Less(FileName(t, i), FileName(u, j)) && Instant(u) < Instant(t)
  {
    FieldsChronological(u, t);
    assert Decimal(10_000, 4) == "10000" by { assert Decimal(100, 2) == "100"; }
    assert Decimal(9_999, 4) == "9999" by { assert Decimal(99, 2) == "99"; }
    assert FileName(t, i)[0] == '1' && FileName(u, j)[0] == '9';
  }

  // ---------------------------------------------------------------------------
  // The directory

  type Header = map<string, seq<string>>

  datatype Msg = Msg(subject: string, reply: string, header: Header, data: seq<bv8>)

  datatype Record = Record(id: string, createdAt: Stamp, subject: string, header: Header, data: seq<bv8>, lastError: string) {
    // storedDeadLetter.message
    function Message(): Msg { Msg(subject, "", header, data) }
  }

  datatype File = Folder | Letter(record: Record) | Undecodable

  type Directory = map<string, File>

  predicate HasSuffix(s: string, suffix: string) { |s| >= |suffix| && s[|s| - |suffix|..] == suffix }

  predicate IsRecordFile(dir: Directory, name: string) {
    name in dir && !dir[name].Folder? && HasSuffix(name, ".json")
  }

  ghost function RecordFiles(dir: Directory): set<string> { set n | n in dir && IsRecordFile(dir, n) }

  // Not a directory, and its name ends in .json.
  lemma RecordFilesAre(dir: Directory, name: string)
    ensures name in RecordFiles(dir) <==> name in dir && !dir[name].Folder? && exists p :: name == p + ".json"
  {
    if |name| >= 5 {
      assert name == name[..|name| - 5] + name[|name| - 5..];
    }
    if exists p :: name == p + ".json" {
      var p :| name == p + ".json";
      assert name[|p|..] == ".json";
    }
  }

  datatype Listed = Listed(name: string, record: Record)

  ghost function NamesOf(ls: seq<Listed>): set<string> { set i | 0 <= i < |ls| :: ls[i].name }

  // The first records of a directory in name order, up to a limit.
  ghost predicate FirstRecords(dir: Directory, limit: int, ls: seq<Listed>) {
    && |ls| <= limit
    && (forall i :: 0 <= i < |ls| ==> IsRecordFile(dir, ls[i].name) && dir[ls[i].name] == Letter(ls[i].record))
    && (forall i, j :: 0 <= i < j < |ls| ==> Less(ls[i].name, ls[j].name))
    && (forall n :: n in RecordFiles(dir) - NamesOf(ls) ==> |ls| == limit && forall i :: 0 <= i < |ls| ==> Less(ls[i].name, n))
  }

  ghost function RecordsBefore(dir: Directory, name: string): set<string> { set n | n in RecordFiles(dir) && Less(n, name) }

  // A listing reads the record files in name order until it has enough of them,
  // and fails on the first that cannot be read or decoded.
  ghost predicate Spoils(dir: Directory, limit: int, unreadable: set<string>, name: string) {
    && name in RecordFiles(dir) && (name in unreadable || dir[name].Undecodable?)
    && |RecordsBefore(dir, name)| < limit
  }

  lemma SortedDistinct(s: seq<string>)
    requires Sorted(s) && forall x :: multiset(s)[x] <= 1
    ensures Ascending(s)
  {
    forall i, j | 0 <= i < j < |s| ensures Less(s[i], s[j]) {
      assert s == s[..j] + s[j..];
      assert multiset(s)[s[i]] == multiset(s[..j])[s[i]] + multiset(s[j..])[s[i]];
      assert s[i] in s[..j] && s[j] in s[j..];
    }
  }

  lemma NextName(records: set<string>, rest: set<string>, name: string)
    requires name in rest
    ensures records - (rest - {name}) == if name in records then (records - rest) + {name} else records - rest
    ensures name !in records - rest
  {
  }

  class DeadLetterStore {
    var dir: Directory
    var count: int

    // count is the number of record files.
    ghost predicate Counted()
      reads this
    {
      count == |RecordFiles(dir)|
    }

    constructor (existing: Directory)
      ensures dir == existing && Counted()
    {
      dir := existing;
      new;
      count := ScanCount();
    }

    method ScanCount() returns (n: int)
      ensures n == |RecordFiles(dir)|
    {
      n := 0;
      var rest := dir.Keys;
      ghost var seen := {};
      while rest != {}
        invariant rest <= dir.Keys
        invariant seen == RecordFiles(dir) - rest && n == |seen|
        decreases |rest|
      {
        var name :| name in rest;
        NextName(RecordFiles(dir), rest, name);
        if !dir[name].Folder? && HasSuffix(name, ".json") {
          n := n + 1;
          seen := seen + {name};
        }
        rest := rest - {name};
      }
      assert seen == RecordFiles(dir);
    }

    method SortedNames() returns (names: seq<string>)
      ensures Ascending(names) && Elements(names) == dir.Keys
    {
      var unsorted: seq<string> := [];
      var rest := dir.Keys;
      while rest != {}
        invariant rest <= dir.Keys && Elements(unsorted) == dir.Keys - rest
        invariant forall x :: multiset(unsorted)[x] <= 1
        decreases |rest|
      {
        var name :| name in rest;
        assert name !in Elements(unsorted);
        assert multiset(unsorted + [name]) == multiset(unsorted) + multiset{name};
        assert Elements(unsorted + [name]) == Elements(unsorted) + {name};
        rest := rest - {name};
        unsorted := unsorted + [name];
      }
      names := Sort(unsorted);
      SortElements(unsorted);
      SortedDistinct(names);
    }

    // Fails if the directory cannot be read, or exactly on a record file that
    // spoils the listing; ReadDir and ReadFile fail as dirFails and unreadable say.
    method List(limit: int, dirFails: bool, unreadable: set<string>) returns (ok: bool, records: seq<Listed>)
      requires limit >= 1
      ensures ok <==> !dirFails && forall n :: !Spoils(dir, limit, unreadable, n)
      ensures ok ==> FirstRecords(dir, limit, records)
      ensures !ok ==> records == []
    {
      if dirFails {
        return false, [];
      }
      var names := SortedNames();
      records := [];
      var i := 0;
      while i < |names| && |records| < limit
        invariant 0 <= i <= |names| && |records| <= limit
        invariant Collected(dir, names, i, records)
        invariant forall n :: n in NamesOf(records) ==> n !in unreadable
      {
        var name := names[i];
        assert name in Elements(names);
        if dir[name].Folder? || !HasSuffix(name, ".json") {
          i := i + 1;
          continue;
        }
        if name in unreadable || dir[name].Undecodable? {
          SpoiledAt(dir, names, i, records, limit, unreadable);
          return false, [];
        }
        CollectOne(dir, names, i, records, dir[name].record);
        NamesPlus(records, Listed(name, dir[name].record));
        records := records + [Listed(name, dir[name].record)];
        i := i + 1;
      }
      CollectedFirst(dir, names, i, records, limit);
      forall n ensures !Spoils(dir, limit, unreadable, n) {
        Unspoiled(dir, limit, records, unreadable, n);
      }
      ok := true;
    }

    // The name is new unless an id repeats; a failed save leaves nothing behind.
    method Save(record: Record, fails: bool) returns (ok: bool)
      modifies this
      ensures ok == !fails
      ensures !ok ==> dir == old(dir) && count == old(count)
      ensures ok ==> dir == old(dir)[FileName(record.createdAt, record.id) := Letter(record)] && count == old(count) + 1
      ensures old(Counted()) && FileName(record.createdAt, record.id) !in old(dir) ==> Counted()
    {
      if fails {
        return false;
      }
      var name := FileName(record.createdAt, record.id);
      dir := dir[name := Letter(record)];
      count := count + 1;
      NameIsRecord(record.createdAt, record.id);
      if name !in old(dir) {
        assert RecordFiles(dir) == old(RecordFiles(dir)) + {name};
      }
      return true;
    }

    // os.Remove, which fails on a missing file or for its own reasons.
    method Delete(name: string, fails: bool) returns (ok: bool)
      modifies this
      ensures ok <==> !fails && name in old(dir)
      ensures ok ==> dir == old(dir) - {name} && count == old(count) - 1
      ensures !ok ==> dir == old(dir) && count == old(count)
      ensures ok && old(Counted()) && IsRecordFile(old(dir), name) ==> Counted()
    {
      if fails || name !in dir {
        return false;
      }
      dir := dir - {name};
      count := count - 1;
      assert RecordFiles(dir) == old(RecordFiles(dir)) - {name};
      return true;
    }
  }

  lemma NameIsRecord(t: Stamp, id: string)
    ensures HasSuffix(FileName(t, id), ".json")
  {
    var p := Layout(Fields(t), WIDTHS, MARKS);
    assert FileName(t, id) == p + "-" + id + ".json";
  }

  // The records among the first i names, in order.
  ghost predicate Collected(dir: Directory, names: seq<string>, i: int, ls: seq<Listed>)
    requires 0 <= i <= |names|
  {
    && (forall a :: 0 <= a < |ls| ==>
          IsRecordFile(dir, ls[a].name) && dir[ls[a].name] == Letter(ls[a].record) && ls[a].name in names[..i])
    && (forall a, b :: 0 <= a < b < |ls| ==> Less(ls[a].name, ls[b].name))
    && (forall a :: 0 <= a < i && IsRecordFile(dir, names[a]) ==> names[a] in NamesOf(ls))
  }

  lemma CollectOne(dir: Directory, names: seq<string>, i: nat, ls: seq<Listed>, r: Record)
    requires i < |names| && Ascending(names) && Collected(dir, names, i, ls)
    requires IsRecordFile(dir, names[i]) && dir[names[i]] == Letter(r)
    ensures Collected(dir, names, i + 1, ls + [Listed(names[i], r)])
  {
    var t := ls + [Listed(names[i], r)];
    forall a | 0 <= a < |ls| ensures Less(ls[a].name, names[i]) && ls[a].name in names[..i + 1] {
      assert ls[a].name in names[..i];
      var c :| 0 <= c < i && names[..i][c] == ls[a].name;
      assert names[..i + 1][c] == ls[a].name;
    }
    assert names[..i + 1][i] == names[i];
    forall a | 0 <= a <= i && IsRecordFile(dir, names[a]) ensures names[a] in NamesOf(t) {
      if a < i {
        assert names[a] in NamesOf(ls);
        var c :| 0 <= c < |ls| && ls[c].name == names[a];
        assert t[c].name == names[a];
      } else {
        assert t[|ls|].name == names[a];
      }
    }
  }

  lemma CollectedFirst(dir: Directory, names: seq<string>, i: nat, ls: seq<Listed>, limit: int)
    requires i <= |names| && Ascending(names) && Elements(names) == dir.Keys && Collected(dir, names, i, ls)
    requires |ls| <= limit && (i == |names| || |ls| == limit)
    ensures FirstRecords(dir, limit, ls)
  {
    forall n | n in RecordFiles(dir) - NamesOf(ls)
      ensures |ls| == limit && forall a :: 0 <= a < |ls| ==> Less(ls[a].name, n)
    {
      assert n in Elements(names);
      var c :| 0 <= c < |names| && names[c] == n;
      assert c >= i;
      forall a | 0 <= a < |ls| ensures Less(ls[a].name, n) {
        assert ls[a].name in names[..i];
        var b :| 0 <= b < i && names[..i][b] == ls[a].name;
      }
    }
  }

  lemma NamesPlus(ls: seq<Listed>, l: Listed)
    ensures NamesOf(ls + [l]) == NamesOf(ls) + {l.name}
  {
    var t := ls + [l];
    assert t[|ls|] == l;
    forall n | n in NamesOf(ls) ensures n in NamesOf(t) {
      var i :| 0 <= i < |ls| && ls[i].name == n;
      assert t[i].name == n;
    }
  }

  // Names in order are distinct.
  lemma {:induction false} NamesSize(ls: seq<Listed>)
    requires forall a, b :: 0 <= a < b < |ls| ==> Less(ls[a].name, ls[b].name)
    ensures |NamesOf(ls)| == |ls|
  {
    if ls != [] {
      var n := |ls| - 1;
      NamesSize(ls[..n]);
      assert ls == ls[..n] + [ls[n]];
      NamesPlus(ls[..n], ls[n]);
      LessTotal(ls[n].name, ls[n].name);
    }
  }

  lemma SpoiledAt(dir: Directory, names: seq<string>, i: nat, ls: seq<Listed>, limit: int, unreadable: set<string>)
    requires i < |names| && Ascending(names) && Elements(names) == dir.Keys && Collected(dir, names, i, ls)
    requires |ls| < limit && IsRecordFile(dir, names[i]) && (names[i] in unreadable || dir[names[i]].Undecodable?)
    ensures Spoils(dir, limit, unreadable, names[i])
  {
    forall n | n in RecordsBefore(dir, names[i]) ensures n in NamesOf(ls) {
      assert n in Elements(names);
      var c :| 0 <= c < |names| && names[c] == n;
      LessTotal(names[i], names[c]);
    }
    NamesSize(ls);
    SubsetSize(RecordsBefore(dir, names[i]), NamesOf(ls));
  }

  lemma Unspoiled(dir: Directory, limit: int, ls: seq<Listed>, unreadable: set<string>, n: string)
    requires FirstRecords(dir, limit, ls) && forall x :: x in NamesOf(ls) ==> x !in unreadable
    ensures !Spoils(dir, limit, unreadable, n)
  {
    if n in RecordFiles(dir) - NamesOf(ls) {
      NamesSize(ls);
      SubsetSize(NamesOf(ls), RecordsBefore(dir, n));
    }
  }
}
