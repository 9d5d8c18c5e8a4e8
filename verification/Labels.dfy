/** The time stamps inside snapshot labels: fixed-width, so that sorting names sorts by time. */
module Labels {
  import opened Text

  // A UTC wall-clock time to the second.
  datatype Stamp = Stamp(year: nat, month: nat, day: nat, hour: nat, minute: nat, second: nat) {
    predicate Valid() {
      1 <= month <= 12 && 1 <= day <= 31 && hour < 24 && minute < 60 && second < 60
    }

    predicate Before(t: Stamp) {
      year < t.year || (year == t.year && (
      month < t.month || (month == t.month && (
      day < t.day || (day == t.day && (
      hour < t.hour || (hour == t.hour && (
      minute < t.minute || (minute == t.minute && second < t.second)))))))))
    }

    function Minute(): Stamp {
      this.(second := 0)
    }
  }

  function Digit(n: nat): char
    requires n < 10
  {
    ('0' as int + n) as char
  }

  function Pad2(n: nat): string
    requires n < 100
  {
    [Digit(n / 10), Digit(n % 10)]
  }

  // A year is padded to four digits and grows beyond them.
  function Year(n: nat): string {
    if n < 10000 then Pad2(n / 100) + Pad2(n % 100) else Show(n)
  }

  /** The label of a replication run: 20060102T150405Z behind the prefix. */
  function RunLabel(prefix: string, t: Stamp): string
    requires t.Valid()
  {
    prefix + (Year(t.year) + (Pad2(t.month) + (Pad2(t.day) +
      ("T" + (Pad2(t.hour) + (Pad2(t.minute) + (Pad2(t.second) + "Z")))))))
  }

  /** The label of an automatic snapshot: 2006-01-02-1504 behind the prefix of its bucket. */
  function SnapLabel(prefix: string, t: Stamp): string
    requires t.Valid()
  {
    prefix + (Year(t.year) + ("-" + (Pad2(t.month) + ("-" + (Pad2(t.day) + ("-" + (Pad2(t.hour) + Pad2(t.minute))))))))
  }

  // ---- Two-digit cells and their order ----

  predicate LexLess(a: seq<nat>, b: seq<nat>)
    requires |a| == |b|
  {
    a != [] && (a[0] < b[0] || (a[0] == b[0] && LexLess(a[1..], b[1..])))
  }

  predicate Cells(ns: seq<nat>) {
    forall k :: 0 <= k < |ns| ==> ns[k] < 100
  }

  // Each cell followed by its separator.
  function Print(ns: seq<nat>, seps: seq<string>): string
    requires |ns| == |seps| && Cells(ns)
  {
    if ns == [] then "" else Pad2(ns[0]) + (seps[0] + Print(ns[1..], seps[1..]))
  }

  lemma {:induction false} LessPair(a: string, c: string, b: string, d: string)
    requires |a| == |c|
    ensures Less(a + b, c + d) <==> Less(a, c) || (a == c && Less(b, d))
  {
    if a == "" {
      assert a + b == b && c + d == d;
    } else {
      assert (a + b)[1..] == a[1..] + b && (c + d)[1..] == c[1..] + d;
      LessPair(a[1..], c[1..], b, d);
      assert a == [a[0]] + a[1..] && c == [c[0]] + c[1..];
    }
  }

  lemma Pad2Order(m: nat, n: nat)
    requires m < 100 && n < 100
    ensures Less(Pad2(m), Pad2(n)) <==> m < n
    ensures Pad2(m) == Pad2(n) <==> m == n
  {
    var a, b := Pad2(m), Pad2(n);
    assert a[1..] == [Digit(m % 10)] && b[1..] == [Digit(n % 10)] && a[1..][1..] == b[1..][1..] == "";
    assert Less(a[1..], b[1..]) <==> Digit(m % 10) < Digit(n % 10);
    assert a[0] == b[0] <==> m / 10 == n / 10;
  }

  /** Strings of cells with the same separators compare as their numbers do. */
  lemma {:induction false} PrintOrder(ms: seq<nat>, ns: seq<nat>, seps: seq<string>)
    requires |ms| == |ns| == |seps| && Cells(ms) && Cells(ns)
    ensures Less(Print(ms, seps), Print(ns, seps)) <==> LexLess(ms, ns)
    ensures Print(ms, seps) == Print(ns, seps) ==> ms == ns
  {
    if ms != [] {
      Pad2Order(ms[0], ns[0]);
      var b, d := Print(ms[1..], seps[1..]), Print(ns[1..], seps[1..]);
      LessPair(Pad2(ms[0]), Pad2(ns[0]), seps[0] + b, seps[0] + d);
      LessSamePrefix(seps[0], b, d);
      PrintOrder(ms[1..], ns[1..], seps[1..]);
      if Print(ms, seps) == Print(ns, seps) {
        var s, t := Print(ms, seps), Print(ns, seps);
        assert s[..2] == Pad2(ms[0]) && t[..2] == Pad2(ns[0]);
        assert s[2 + |seps[0]|..] == b && t[2 + |seps[0]|..] == d;
        assert ms == [ms[0]] + ms[1..] && ns == [ns[0]] + ns[1..];
      }
    }
  }

  // ---- The order of years ----

  /** Numbers with equally many digits compare as their digits do. */
  lemma {:induction false} ShowOrder(m: nat, n: nat)
    requires |Show(m)| == |Show(n)|
    ensures Less(Show(m), Show(n)) <==> m < n
    ensures Show(m) == Show(n) <==> m == n
  {
    assert Decimal(Show(m)) == m && Decimal(Show(n)) == n;
    if m < 10 {
      assert |Show(m)| == 1;
      ShowLength(n);
      DigitOrder(m, n);
    } else {
      ShowLength(n);
      ShowOrder(m / 10, n / 10);
      LessPair(Show(m / 10), Show(n / 10), [Digit(m % 10)], [Digit(n % 10)]);
      DigitOrder(m % 10, n % 10);
    }
  }

  lemma ShowLength(n: nat)
    ensures |Show(n)| == 1 <==> n < 10
    ensures n >= 10 ==> |Show(n)| == |Show(n / 10)| + 1 && Show(n) == Show(n / 10) + [Digit(n % 10)]
    ensures n < 10 ==> Show(n) == [Digit(n)]
  {
  }

  lemma DigitOrder(m: nat, n: nat)
    requires m < 10 && n < 10
    ensures Less([Digit(m)], [Digit(n)]) <==> m < n
  {
    assert [Digit(m)][1..] == [Digit(n)][1..] == "";
  }

  lemma LongYear(n: nat)
    requires n >= 10000
    ensures |Year(n)| > 4 && Year(n) == Show(n)
  {
    ShowLength(n);
    ShowLength(n / 10);
    ShowLength(n / 10 / 10);
    ShowLength(n / 10 / 10 / 10);
  }

  lemma YearOrder(m: nat, n: nat)
    requires |Year(m)| == |Year(n)|
    ensures Less(Year(m), Year(n)) <==> m < n
    ensures Year(m) == Year(n) <==> m == n
  {
    if m >= 10000 {
      LongYear(m);
    }
    if n >= 10000 {
      LongYear(n);
    }
    if m >= 10000 {
      ShowOrder(m, n);
    } else {
      Pad2Order(m / 100, n / 100);
      Pad2Order(m % 100, n % 100);
      LessPair(Pad2(m / 100), Pad2(n / 100), Pad2(m % 100), Pad2(n % 100));
      SamePair(Pad2(m / 100), Pad2(n / 100), Pad2(m % 100), Pad2(n % 100));
    }
  }

  lemma SamePair(a: string, c: string, b: string, d: string)
    requires |a| == |c|
    ensures a + b == c + d <==> a == c && b == d
  {
    assert (a + b)[..|a|] == a && (c + d)[..|c|] == c && (a + b)[|a|..] == b && (c + d)[|c|..] == d;
  }

  // ---- The two label formats ----

  // What follows the year.
  function RunCells(t: Stamp): seq<nat>
    requires t.Valid()
  {
    [t.month, t.day, t.hour, t.minute, t.second]
  }

  const RUN_SEPS: seq<string> := ["", "T", "", "", "Z"]
  const SNAP_SEPS: seq<string> := ["-", "-", "", ""]

  lemma PrintFrom(ns: seq<nat>, seps: seq<string>, k: nat)
    requires k < |ns| == |seps| && Cells(ns)
    ensures Print(ns[k..], seps[k..]) == Pad2(ns[k]) + (seps[k] + Print(ns[k + 1..], seps[k + 1..]))
    ensures k + 1 == |ns| ==> Print(ns[k..], seps[k..]) == Pad2(ns[k]) + seps[k]
  {
    var rest := Print(ns[k + 1..], seps[k + 1..]);
    assert ns[k..][1..] == ns[k + 1..] && seps[k..][1..] == seps[k + 1..];
    assert k + 1 == |ns| ==> seps[k] + rest == seps[k];
  }

  /** The first four cells, for any separators. */
  lemma PrintFour(c: seq<nat>, s: seq<string>)
    requires 4 <= |c| == |s| <= 5 && Cells(c)
    ensures Print(c, s) == Pad2(c[0]) + (s[0] + (Pad2(c[1]) + (s[1] + Print(c[2..], s[2..]))))
    ensures Print(c[2..], s[2..]) == Pad2(c[2]) + (s[2] + (Pad2(c[3]) + (s[3] + Print(c[4..], s[4..]))))
    ensures |c| == 4 ==> Print(c[4..], s[4..]) == ""
    ensures |c| == 5 ==> Print(c[4..], s[4..]) == Pad2(c[4]) + s[4]
  {
    PrintFrom(c, s, 0);
    PrintFrom(c, s, 1);
    PrintFrom(c, s, 2);
    PrintFrom(c, s, 3);
    if |c| == 5 {
      PrintFrom(c, s, 4);
    }
    assert c[0..] == c && s[0..] == s;
  }

  lemma Empty(a: string, b: string)
    ensures a + ("" + b) == a + b
  {
    assert "" + b == b;
  }

  lemma RunLabelPrints(prefix: string, t: Stamp)
    requires t.Valid()
    ensures Cells(RunCells(t)) && RunLabel(prefix, t) == prefix + (Year(t.year) + Print(RunCells(t), RUN_SEPS))
  {
    var c, s := RunCells(t), RUN_SEPS;
    PrintFour(c, s);
    Empty(Pad2(t.minute), Print(c[4..], s[4..]));
    Empty(Pad2(t.hour), Pad2(t.minute) + Print(c[4..], s[4..]));
    Empty(Pad2(t.month), Pad2(t.day) + (s[1] + Print(c[2..], s[2..])));
  }

  lemma SnapLabelPrints(prefix: string, t: Stamp)
    requires t.Valid()
    ensures Cells(RunCells(t)[..4]) &&
      SnapLabel(prefix, t) == prefix + (Year(t.year) + ("-" + Print(RunCells(t)[..4], SNAP_SEPS)))
  {
    var c, s := RunCells(t)[..4], SNAP_SEPS;
    PrintFour(c, s);
    Empty(Pad2(t.minute), "");
    Empty(Pad2(t.hour), Pad2(t.minute));
    assert Pad2(t.minute) + "" == Pad2(t.minute);
  }

  lemma LexFrom(a: seq<nat>, b: seq<nat>, k: nat)
    requires k < |a| == |b|
    ensures LexLess(a[k..], b[k..]) <==> a[k] < b[k] || (a[k] == b[k] && LexLess(a[k + 1..], b[k + 1..]))
  {
    assert a[k..][1..] == a[k + 1..] && b[k..][1..] == b[k + 1..];
  }

  lemma CellsOrder(s: Stamp, t: Stamp)
    requires s.Valid() && t.Valid()
    ensures s.Before(t) <==> s.year < t.year || (s.year == t.year && LexLess(RunCells(s), RunCells(t)))
    ensures s.Minute().Before(t.Minute()) <==>
      s.year < t.year || (s.year == t.year && LexLess(RunCells(s)[..4], RunCells(t)[..4]))
    ensures RunCells(s) == RunCells(t) && s.year == t.year ==> s == t
    ensures RunCells(s)[..4] == RunCells(t)[..4] && s.year == t.year ==> s.Minute() == t.Minute()
  {
    var a, b := RunCells(s), RunCells(t);
    var c, d := a[..4], b[..4];
    LexFrom(a, b, 4);
    LexFrom(a, b, 3);
    LexFrom(a, b, 2);
    LexFrom(a, b, 1);
    LexFrom(a, b, 0);
    LexFrom(c, d, 3);
    LexFrom(c, d, 2);
    LexFrom(c, d, 1);
    LexFrom(c, d, 0);
    assert a[0..] == a && b[0..] == b && c[0..] == c && d[0..] == d;
    assert forall k :: 0 <= k < 4 ==> c[k] == a[k] && d[k] == b[k];
  }

  /** For years with equally many digits, string order of run labels is time order, and a second has one label. */
  lemma RunLabelOrder(prefix: string, s: Stamp, t: Stamp)
    requires s.Valid() && t.Valid() && |Year(s.year)| == |Year(t.year)|
    ensures Less(RunLabel(prefix, s), RunLabel(prefix, t)) <==> s.Before(t)
    ensures RunLabel(prefix, s) == RunLabel(prefix, t) ==> s == t
  {
    RunLabelPrints(prefix, s);
    RunLabelPrints(prefix, t);
    var a, b := Print(RunCells(s), RUN_SEPS), Print(RunCells(t), RUN_SEPS);
    CellsOrder(s, t);
    PrintOrder(RunCells(s), RunCells(t), RUN_SEPS);
    LabelOrder(prefix, s.year, t.year, a, b);
  }

  /** Labels compare by year first, then by what follows it. */
  lemma LabelOrder(prefix: string, m: nat, n: nat, a: string, b: string)
    requires |Year(m)| == |Year(n)|
    ensures Less(prefix + (Year(m) + a), prefix + (Year(n) + b)) <==> m < n || (m == n && Less(a, b))
    ensures prefix + (Year(m) + a) == prefix + (Year(n) + b) <==> m == n && a == b
  {
    YearOrder(m, n);
    LessPair(Year(m), Year(n), a, b);
    SamePair(Year(m), Year(n), a, b);
    LessSamePrefix(prefix, Year(m) + a, Year(n) + b);
    SamePair(prefix, prefix, Year(m) + a, Year(n) + b);
  }

  /** The same for automatic snapshots, by minute. */
  lemma SnapLabelOrder(prefix: string, s: Stamp, t: Stamp)
    requires s.Valid() && t.Valid() && |Year(s.year)| == |Year(t.year)|
    ensures Less(SnapLabel(prefix, s), SnapLabel(prefix, t)) <==> s.Minute().Before(t.Minute())
    ensures SnapLabel(prefix, s) == SnapLabel(prefix, t) <==> s.Minute() == t.Minute()
  {
    SnapLabelPrints(prefix, s);
    SnapLabelPrints(prefix, t);
    var a, b := Print(RunCells(s)[..4], SNAP_SEPS), Print(RunCells(t)[..4], SNAP_SEPS);
    CellsOrder(s, t);
    PrintOrder(RunCells(s)[..4], RunCells(t)[..4], SNAP_SEPS);
    LessSamePrefix("-", a, b);
    SamePair("-", "-", a, b);
    LabelOrder(prefix, s.year, t.year, "-" + a, "-" + b);
  }

  // ---- Years of different lengths ----

  /** Digit strings of one length compare as their numbers do. */
  lemma {:induction false} DigitsOrder(a: string, b: string)
    requires |a| == |b| && (forall k :: 0 <= k < |a| ==> IsDigit(a[k])) && (forall k :: 0 <= k < |b| ==> IsDigit(b[k]))
    ensures Less(a, b) <==> Decimal(a) < Decimal(b)
    ensures a == b <==> Decimal(a) == Decimal(b)
  {
    if a != "" {
      var n := |a| - 1;
      DigitsOrder(a[..n], b[..n]);
      LessPair(a[..n], b[..n], [a[n]], [b[n]]);
      assert a == a[..n] + [a[n]] && b == b[..n] + [b[n]];
      LessOne(a[n], b[n]);
    }
  }

  lemma LessOne(c: char, d: char)
    ensures Less([c], [d]) <==> c < d
  {
    assert [c][1..] == [d][1..] == "";
  }

  lemma {:induction false} LongerIsGreater(m: nat, n: nat)
    requires |Show(m)| < |Show(n)|
    ensures m < n
  {
    ShowLength(m);
    ShowLength(n);
    if m >= 10 {
      LongerIsGreater(m / 10, n / 10);
    }
  }

  lemma LongerYear(m: nat, n: nat)
    requires |Year(m)| < |Year(n)|
    ensures m < n
  {
    if m >= 10000 {
      LongYear(m);
      LongerIsGreater(m, n);
    }
  }

  /** The date of a run label: the digits in front of the `T`. */
  function Date(t: Stamp): (d: string)
    requires t.Valid()
    ensures |d| == |Year(t.year)| + 4
    ensures forall k :: 0 <= k < |d| ==> IsDigit(d[k])
  {
    Year(t.year) + (Pad2(t.month) + Pad2(t.day))
  }

  lemma DateOfLabel(prefix: string, t: Stamp)
    requires t.Valid()
    ensures exists rest :: RunLabel(prefix, t) == prefix + (Date(t) + (['T'] + rest))
  {
    var rest := Pad2(t.hour) + (Pad2(t.minute) + (Pad2(t.second) + "Z"));
    assert RunLabel(prefix, t) == prefix + (Date(t) + (['T'] + rest));
  }

  /**
   * A year of more digits comes later. Its labels sort behind those of year s exactly if its date, cut to as many
   * digits, is the greater number, and before them otherwise: those of the first of January 20260 (202600101T) sort
   * behind all of 2025 and before all of 2026.
   */
  lemma LongerYearOrder(prefix: string, s: Stamp, t: Stamp)
    requires s.Valid() && t.Valid() && |Year(s.year)| < |Year(t.year)|
    ensures s.Before(t)
    ensures var cut := Date(t)[..|Date(s)|];
      && (Less(RunLabel(prefix, s), RunLabel(prefix, t)) <==> Decimal(Date(s)) < Decimal(cut))
      && (Less(RunLabel(prefix, t), RunLabel(prefix, s)) <==> Decimal(cut) <= Decimal(Date(s)))
  {
    LongerYear(s.year, t.year);
    DateOfLabel(prefix, s);
    DateOfLabel(prefix, t);
    var a :| RunLabel(prefix, s) == prefix + (Date(s) + (['T'] + a));
    var b :| RunLabel(prefix, t) == prefix + (Date(t) + (['T'] + b));
    LongerDate(prefix, Date(s), Date(t), a, ['T'] + b);
  }

  // A digit sorts before the `T` that ends the shorter date.
  lemma LongerDate(prefix: string, x: string, d: string, a: string, b: string)
    requires |x| < |d| && (forall k :: 0 <= k < |x| ==> IsDigit(x[k])) && (forall k :: 0 <= k < |d| ==> IsDigit(d[k]))
    ensures Less(prefix + (x + (['T'] + a)), prefix + (d + b)) <==> Decimal(x) < Decimal(d[..|x|])
    ensures Less(prefix + (d + b), prefix + (x + (['T'] + a))) <==> Decimal(d[..|x|]) <= Decimal(x)
  {
    var n := |x|;
    var c := [d[n]] + (d[n + 1..] + b);
    assert d + b == d[..n] + c;
    CutOrder(prefix, x, d[..n], ['T'] + a, c);
    assert (['T'] + a)[0] == 'T' && c[0] == d[n] && IsDigit(d[n]);
  }

  lemma CutOrder(prefix: string, x: string, y: string, a: string, b: string)
    requires |x| == |y| && (forall k :: 0 <= k < |x| ==> IsDigit(x[k])) && (forall k :: 0 <= k < |y| ==> IsDigit(y[k]))
    ensures Less(prefix + (x + a), prefix + (y + b)) <==>
      Decimal(x) < Decimal(y) || (Decimal(x) == Decimal(y) && Less(a, b))
    ensures Less(prefix + (y + b), prefix + (x + a)) <==>
      Decimal(y) < Decimal(x) || (Decimal(x) == Decimal(y) && Less(b, a))
  {
    DigitsOrder(x, y);
    DigitsOrder(y, x);
    LessPair(x, y, a, b);
    LessPair(y, x, b, a);
    LessSamePrefix(prefix, x + a, y + b);
    LessSamePrefix(prefix, y + b, x + a);
  }
}
