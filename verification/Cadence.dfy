/** When the buckets of automatic snapshots fire: their cron expressions, read by the program's own parser. */
module Cadence {
  import opened Text
  import opened Cron
  import opened CronGrammar
  import opened Autosnap
  import opened Labels
  import opened Snapshots

  function CronExpression(b: Bucket): string {
    match b
    case Frequent => "*/15 * * * *"
    case Hourly => "0 * * * *"
    case Daily => "0 0 * * *"
    case Weekly => "0 0 * * 0"
    case Monthly => "0 0 1 * *"
  }

  /** Every quarter of an hour, every hour, at midnight, at midnight to Sunday, at midnight to the first of a month. */
  predicate Due(b: Bucket, t: Moment) {
    match b
    case Frequent => t.minute in {0, 15, 30, 45}
    case Hourly => t.minute == 0
    case Daily => t.minute == 0 && t.hour == 0
    case Weekly => t.minute == 0 && t.hour == 0 && t.weekday == 0
    case Monthly => t.minute == 0 && t.hour == 0 && t.day == 1
  }

  function Every(): seq<Item> {
    [Item(Star, None)]
  }

  function Only(n: nat): seq<Item> {
    [Item(One(n), None)]
  }

  function Quarters(): seq<Item> {
    [Item(Star, Some(15))]
  }

  function ExprOf(b: Bucket): Expr {
    match b
    case Frequent => Expr(Quarters(), Every(), Every(), Every(), Every())
    case Hourly => Expr(Only(0), Every(), Every(), Every(), Every())
    case Daily => Expr(Only(0), Only(0), Every(), Every(), Every())
    case Weekly => Expr(Only(0), Only(0), Every(), Every(), Only(0))
    case Monthly => Expr(Only(0), Only(0), Only(1), Every(), Every())
  }

  lemma PrintedItems()
    ensures PrintField(Every()) == "*" && PrintField(Quarters()) == "*/15"
    ensures PrintField(Only(0)) == "0" && PrintField(Only(1)) == "1"
  {
    assert Show(1) == "1" && Show(15) == Show(1) + ['5'] && Show(0) == "0";
    assert Item(Star, Some(15)).Print() == "*/15" && Item(One(0), None).Print() == "0";
  }

  lemma JoinFive(a: string, b: string, c: string, d: string, e: string)
    ensures Join([a, b, c, d, e], ' ') == a + " " + b + " " + c + " " + d + " " + e
  {
    assert [a, b, c, d, e][1..] == [b, c, d, e] && [b, c, d, e][1..] == [c, d, e] && [c, d, e][1..] == [d, e];
    assert [d, e][1..] == [e];
    assert Join([d, e], ' ') == d + " " + e;
    assert Join([c, d, e], ' ') == c + " " + Join([d, e], ' ');
    assert Join([b, c, d, e], ' ') == b + " " + Join([c, d, e], ' ');
  }

  lemma ExprPrints(b: Bucket)
    ensures ExprOf(b).Print() == CronExpression(b)
  {
    PrintedItems();
    var e := ExprOf(b);
    JoinFive(PrintField(e.minute), PrintField(e.hour), PrintField(e.dom), PrintField(e.month), PrintField(e.dow));
  }

  lemma ExprIsLegal(b: Bucket)
    ensures ExprOf(b).Legal()
  {
    PrintedItems();
    assert '7' !in "*" && '7' !in "0";
  }

  lemma SingleDenotes(i: Item, min: nat, max: nat, v: nat)
    requires i.Step() > 0
    ensures FieldDenotes([i], min, max, v) <==>
      i.Lo(min) <= v <= i.Hi(max) && (v - i.Lo(min)) % i.Step() == 0
  {
    assert [i][0] == i;
    NthIsMultiple(i.Lo(min), i.Step(), v);
    assert FieldDenotes([i], min, max, v) <==> Denotes(i, min, max, v);
  }

  lemma OnlyDenotes(n: nat, min: nat, max: nat, v: nat)
    ensures FieldDenotes(Only(n), min, max, v) <==> v == n
  {
    SingleDenotes(Item(One(n), None), min, max, v);
  }

  lemma QuartersDenote(v: nat)
    requires v < 60
    ensures FieldDenotes(Quarters(), 0, 59, v) <==> v in {0, 15, 30, 45}
  {
    SingleDenotes(Item(Star, Some(15)), 0, 59, v);
  }

  lemma FiresWhenDue(b: Bucket, t: Moment)
    requires t.Valid()
    ensures Fires(ExprOf(b), t) <==> Due(b, t)
  {
    StarDenotesAll(Every(), 0, 23, t.hour);
    StarDenotesAll(Every(), 1, 12, t.month);
    StarDenotesAll(Every(), 1, 31, t.day);
    StarDenotesAll(Every(), 0, 6, t.weekday);
    QuartersDenote(t.minute);
    OnlyDenotes(0, 0, 59, t.minute);
    OnlyDenotes(0, 0, 23, t.hour);
    OnlyDenotes(1, 1, 31, t.day);
    OnlyDenotes(0, 0, 6, t.weekday);
  }

  /** The parser accepts the expression of every bucket, and its schedule matches exactly when the bucket is due. */
  lemma BucketSchedule(b: Bucket, t: Moment)
    requires t.Valid()
    ensures ParseSpec(CronExpression(b)).Parsed?
    ensures var s := ParseSpec(CronExpression(b)).schedule; s.Valid() && (s.Matches(t) <==> Due(b, t))
  {
    ExprIsLegal(b);
    ExprPrints(b);
    ParseOfPrint(ExprOf(b));
    FiresWhenDue(b, t);
  }

  /** The names that zfs-auto-snapshot gives: a dataset, the bucket, and the minute. */
  lemma LegacyNames(d: string, t: Stamp)
    requires t.Valid()
    ensures SnapshotPrefix(Frequent) == "zfs-auto-snap_frequent-"
    ensures SnapshotPrefix(Hourly) == "zfs-auto-snap_hourly-"
    ensures SnapshotPrefix(Daily) == "zfs-auto-snap_daily-"
    ensures SnapshotPrefix(Weekly) == "zfs-auto-snap_weekly-"
    ensures SnapshotPrefix(Monthly) == "zfs-auto-snap_monthly-"
    ensures forall b :: BucketPrefix(d, b) <= Name(d, SnapLabel(SnapshotPrefix(b), t))
  {
    forall b ensures BucketPrefix(d, b) <= Name(d, SnapLabel(SnapshotPrefix(b), t)) {
      SnapLabelPrints(SnapshotPrefix(b), t);
    }
  }
}
