/**
 * The documented grammar of cron expressions, with a printer. Parsing a printed expression gives the
 * documented meaning, which is what connects the parser of module Cron to its documentation.
 */
module CronGrammar {
  import opened Text
  import opened Cron

  datatype Base = Star | One(n: nat) | Range(lo: nat, hi: nat) {
    predicate Fits() {
      match this case Star => true case One(n) => n <= MAX_INT case Range(l, h) => l <= MAX_INT && h <= MAX_INT
    }
  }

  datatype Item = Item(base: Base, step: Option<nat>) {
    function Step(): nat {
      if step.Some? then step.value else 1
    }

    function Lo(min: nat): nat {
      match base case Star => min case One(n) => n case Range(lo, _) => lo
    }

    function Hi(max: nat): nat {
      match base case Star => max case One(n) => (if Step() > 1 then max else n) case Range(_, hi) => hi
    }

    /** The item is meaningful for a field whose values run over min..max. */
    predicate Legal(min: nat, max: nat) {
      Step() > 0 && min <= Lo(min) <= Hi(max) <= max
    }

    predicate Representable() {
      Step() <= MAX_INT && base.Fits()
    }

    function PrintBase(): string {
      match base case Star => "*" case One(n) => Show(n) case Range(lo, hi) => Show(lo) + ['-'] + Show(hi)
    }

    function Print(): string {
      if step.None? then PrintBase() else PrintBase() + ['/'] + Show(step.value)
    }
  }

  /** The values of an item: lo, lo + step, ... up to hi. */
  ghost predicate Denotes(i: Item, min: nat, max: nat, v: nat) {
    v <= i.Hi(max) && exists k: nat :: v == Nth(i.Lo(min), i.Step(), k)
  }

  // ---- Reading an item, however its numbers are written ----

  predicate Digits(s: string) {
    s != "" && forall k :: 0 <= k < |s| ==> IsDigit(s[k])
  }

  lemma AtoiOfDigits(s: string)
    requires Digits(s)
    ensures Atoi(s) == if Decimal(s) <= MAX_INT then Some(Decimal(s)) else None
  {
    assert IsDigit(s[0]);
  }

  datatype WrittenBase = WrittenStar | WrittenOne(n: string) | WrittenRange(lo: string, hi: string)

  // An item as text, with any digits, leading zeros included, for its numbers.
  datatype Written = Written(base: WrittenBase, step: Option<string>) {
    predicate Ok() {
      && (step.Some? ==> Digits(step.value))
      && match base
         case WrittenStar => true
         case WrittenOne(n) => Digits(n)
         case WrittenRange(lo, hi) => Digits(lo) && Digits(hi)
    }

    function BaseText(): string {
      match base case WrittenStar => "*" case WrittenOne(n) => n case WrittenRange(lo, hi) => lo + ['-'] + hi
    }

    function Text(): string {
      if step.None? then BaseText() else BaseText() + ['/'] + step.value
    }

    function Meant(): Item
      requires Ok()
    {
      Item(match base
           case WrittenStar => Star
           case WrittenOne(n) => One(Decimal(n))
           case WrittenRange(lo, hi) => Range(Decimal(lo), Decimal(hi)),
           if step.None? then None else Some(Decimal(step.value)))
    }
  }

  lemma BaseHasNoSlash(w: Written)
    requires w.Ok()
    ensures '/' !in w.BaseText()
  {
  }

  lemma StepOfText(w: Written)
    requires w.Ok()
    ensures StepOf(w.Text()) == if 0 < w.Meant().Step() <= MAX_INT then Some(w.Meant().Step()) else None
    ensures BodyOf(w.Text()) == w.BaseText()
  {
    var b := w.BaseText();
    BaseHasNoSlash(w);
    if w.step.Some? {
      IndexOfFirst(b, '/', w.step.value);
      AtoiOfDigits(w.step.value);
      assert w.Text()[|b| + 1..] == w.step.value && w.Text()[..|b|] == b;
    }
  }

  lemma BoundsOfOne(n: string, step: nat, min: nat, max: nat)
    requires Digits(n)
    ensures Bounds(n, step, min, max) ==
      if Decimal(n) > MAX_INT then None else Some((Decimal(n) as int, if step > 1 then max as int else Decimal(n)))
  {
    AtoiOfDigits(n);
    assert IsDigit(n[0]);
  }

  lemma BoundsOfRange(lo: string, hi: string, step: nat, min: nat, max: nat)
    requires Digits(lo) && Digits(hi)
    ensures Bounds(lo + ['-'] + hi, step, min, max) ==
      if Decimal(lo) > MAX_INT || Decimal(hi) > MAX_INT then None else Some((Decimal(lo) as int, Decimal(hi) as int))
  {
    var b := lo + ['-'] + hi;
    AtoiOfDigits(lo);
    AtoiOfDigits(hi);
    IndexOfFirst(lo, '-', hi);
    assert b[..|lo|] == lo && b[|lo| + 1..] == hi;
    assert IsDigit(lo[0]) && b[0] == lo[0];
  }

  lemma BoundsOfText(w: Written, step: nat, min: nat, max: nat)
    requires w.Ok() && step == w.Meant().Step()
    ensures var i := w.Meant();
      Bounds(w.BaseText(), step, min, max) ==
        if i.base.Fits() then Some((i.Lo(min) as int, i.Hi(max) as int)) else None
  {
    match w.base
    case WrittenStar =>
    case WrittenOne(n) => BoundsOfOne(n, step, min, max);
    case WrittenRange(lo, hi) => BoundsOfRange(lo, hi, step, min, max);
  }

  /** The part is read as the item that is meant: refused exactly if that is illegal or a number of it is no `int`. */
  lemma PartOfText(w: Written, min: nat, max: nat)
    requires w.Ok()
    ensures var i := w.Meant();
      ReadPart(w.Text(), min, max) ==
        if !i.Legal(min, max) || !i.Representable() then BadPart
        else if i.Lo(min) + i.Step() > MAX_INT then PartPanics
        else Steps(i.Lo(min), i.Hi(max), i.Step())
  {
    StepOfText(w);
    if 0 < w.Meant().Step() <= MAX_INT {
      BoundsOfText(w, w.Meant().Step(), min, max);
    }
  }

  // The item with every number in its shortest form.
  function Shortest(i: Item): Written {
    Written(match i.base
            case Star => WrittenStar
            case One(n) => WrittenOne(Show(n))
            case Range(lo, hi) => WrittenRange(Show(lo), Show(hi)),
            if i.step.None? then None else Some(Show(i.step.value)))
  }

  lemma ShortestIsPrinted(i: Item)
    ensures Shortest(i).Ok() && Shortest(i).Text() == i.Print() && Shortest(i).Meant() == i
  {
  }

  /** Reading a printed item gives its documented progression, or rejects it exactly when it is illegal. */
  lemma PartOfPrint(i: Item, min: nat, max: nat)
    requires i.Representable()
    ensures ReadPart(i.Print(), min, max) ==
            if !i.Legal(min, max) then BadPart
            else if i.Lo(min) + i.Step() > MAX_INT then PartPanics
            else Steps(i.Lo(min), i.Hi(max), i.Step())
  {
    ShortestIsPrinted(i);
    PartOfText(Shortest(i), min, max);
  }

  function PrintAll(items: seq<Item>): (s: seq<string>)
    ensures |s| == |items|
    ensures forall k :: 0 <= k < |s| ==> s[k] == items[k].Print()
  {
    seq(|items|, k requires 0 <= k < |items| => items[k].Print())
  }

  function PrintField(items: seq<Item>): string
    requires items != []
  {
    Join(PrintAll(items), ',')
  }

  lemma PrintedItemIsPlain(i: Item)
    ensures IsWord(i.Print()) && ',' !in i.Print()
  {
    var b := i.PrintBase();
    assert forall k :: 0 <= k < |b| ==> IsDigit(b[k]) || b[k] == '*' || b[k] == '-';
    assert b != "";
    var p := i.Print();
    assert forall k :: 0 <= k < |p| ==> IsDigit(p[k]) || p[k] == '*' || p[k] == '-' || p[k] == '/';
  }

  ghost predicate LegalField(items: seq<Item>, min: nat, max: nat) {
    && items != []
    && forall k :: 0 <= k < |items| ==>
         && items[k].Legal(min, max)
         && items[k].Representable()
         && items[k].Lo(min) + items[k].Step() <= MAX_INT
  }

  ghost predicate FieldDenotes(items: seq<Item>, min: nat, max: nat, v: nat) {
    exists k :: 0 <= k < |items| && Denotes(items[k], min, max, v)
  }

  lemma {:induction false} PartsOfPrint(items: seq<Item>, min: nat, max: nat)
    requires items == [] || LegalField(items, min, max)
    ensures ReadParts(PrintAll(items), min, max).Slots?
    ensures forall v: nat :: v in ReadParts(PrintAll(items), min, max).slots <==> FieldDenotes(items, min, max, v)
  {
    if items != [] {
      var i, rest := items[0], items[1..];
      PartsOfPrint(rest, min, max);
      PartOfPrint(i, min, max);
      assert PrintAll(items)[1..] == PrintAll(rest);
      forall v: nat
        ensures v in ReadParts(PrintAll(items), min, max).slots <==> FieldDenotes(items, min, max, v)
      {
        ProgressionMembers(i.Lo(min), i.Hi(max), i.Step(), v);
        assert FieldDenotes(rest, min, max, v) ==> FieldDenotes(items, min, max, v) by {
          if k :| 0 <= k < |rest| && Denotes(rest[k], min, max, v) {
            assert items[k + 1] == rest[k];
          }
        }
        if k :| 0 <= k < |items| && Denotes(items[k], min, max, v) && k > 0 {
          assert rest[k - 1] == items[k];
        }
      }
    }
  }

  /** A printed field denotes the union of its items. */
  lemma FieldOfPrint(items: seq<Item>, min: nat, max: nat)
    requires LegalField(items, min, max)
    ensures ReadField(PrintField(items), min, max).Slots?
    ensures forall v: nat :: v in ReadField(PrintField(items), min, max).slots <==> FieldDenotes(items, min, max, v)
  {
    forall k | 0 <= k < |items| ensures ',' !in PrintAll(items)[k] {
      PrintedItemIsPlain(items[k]);
    }
    SplitOfJoin(PrintAll(items), ',');
    PartsOfPrint(items, min, max);
  }

  lemma {:induction false} JoinIsWord(parts: seq<string>)
    requires parts != []
    requires forall k :: 0 <= k < |parts| ==> IsWord(parts[k])
    ensures IsWord(Join(parts, ','))
  {
    if |parts| > 1 {
      JoinIsWord(parts[1..]);
    }
  }

  lemma PrintedFieldIsWord(items: seq<Item>)
    requires items != []
    ensures IsWord(PrintField(items))
  {
    forall k | 0 <= k < |items| ensures IsWord(PrintAll(items)[k]) {
      PrintedItemIsPlain(items[k]);
    }
    JoinIsWord(PrintAll(items));
  }

  datatype Expr = Expr(minute: seq<Item>, hour: seq<Item>, dom: seq<Item>, month: seq<Item>, dow: seq<Item>) {
    ghost predicate Legal() {
      && LegalField(minute, 0, 59) && LegalField(hour, 0, 23) && LegalField(dom, 1, 31)
      && LegalField(month, 1, 12) && LegalField(dow, 0, 6)
      && '7' !in PrintField(dow)
    }

    function Print(): string
      requires minute != [] && hour != [] && dom != [] && month != [] && dow != []
    {
      Join([PrintField(minute), PrintField(hour), PrintField(dom), PrintField(month), PrintField(dow)], ' ')
    }
  }

  ghost predicate IsStar(items: seq<Item>) {
    items == [Item(Star, None)]
  }

  /** The documented meaning, with Vixie's rule for the two day fields. */
  ghost predicate Fires(e: Expr, t: Moment) {
    && FieldDenotes(e.minute, 0, 59, t.minute)
    && FieldDenotes(e.hour, 0, 23, t.hour)
    && FieldDenotes(e.month, 1, 12, t.month)
    && var dom, dow := FieldDenotes(e.dom, 1, 31, t.day), FieldDenotes(e.dow, 0, 6, t.weekday);
       if IsStar(e.dom) || IsStar(e.dow) then dom && dow else dom || dow
  }

  lemma StarText(items: seq<Item>)
    requires items != []
    ensures PrintField(items) == "*" <==> IsStar(items)
  {
    forall k | 0 <= k < |items| ensures PrintAll(items)[k] != "" {
      PrintedItemIsPlain(items[k]);
    }
    var first := items[0].Print();
    if |items| > 1 {
      assert PrintField(items)[|first|] == ',';
    } else {
      assert PrintField(items) == first;
      assert items[0].PrintBase() <= first;
      assert !items[0].base.Star? ==> IsDigit(first[0]);
    }
  }

  lemma StarDenotesAll(items: seq<Item>, min: nat, max: nat, v: nat)
    requires IsStar(items) && min <= v <= max
    ensures FieldDenotes(items, min, max, v)
  {
    var i, k: nat := items[0], v - min;
    assert i.Lo(min) == min && i.Step() == 1 && i.Hi(max) == max;
    assert v == Nth(i.Lo(min), i.Step(), k);
    assert Denotes(i, min, max, v);
  }

  /** Five words joined by spaces are parsed word by word. */
  lemma ParseOfWords(words: seq<string>)
    requires |words| == 5 && forall k :: 0 <= k < |words| ==> IsWord(words[k])
    ensures ParseSpec(Join(words, ' ')) ==
      Combine(ReadField(words[0], 0, 59), ReadField(words[1], 0, 23), ReadField(words[2], 1, 31),
              ReadField(words[3], 1, 12), ReadField(ReplaceAll7(words[4]), 0, 6),
              words[2] == "*", words[4] == "*", Join(words, ' '))
  {
    FieldsOfJoin(words);
    forall k | 0 <= k < |words| ensures IsTrimmed(words[k]) {
      assert IsWord(words[k]);
    }
    JoinIsTrimmed(words, ' ');
  }

  function Words(e: Expr): (words: seq<string>)
    requires e.minute != [] && e.hour != [] && e.dom != [] && e.month != [] && e.dow != []
    ensures |words| == 5 && Join(words, ' ') == e.Print()
  {
    [PrintField(e.minute), PrintField(e.hour), PrintField(e.dom), PrintField(e.month), PrintField(e.dow)]
  }

  lemma FieldsOfPrint(e: Expr)
    requires e.Legal()
    ensures ParseSpec(e.Print()) ==
      Combine(ReadField(PrintField(e.minute), 0, 59), ReadField(PrintField(e.hour), 0, 23),
              ReadField(PrintField(e.dom), 1, 31), ReadField(PrintField(e.month), 1, 12),
              ReadField(PrintField(e.dow), 0, 6), IsStar(e.dom), IsStar(e.dow), e.Print())
  {
    PrintedFieldIsWord(e.minute);
    PrintedFieldIsWord(e.hour);
    PrintedFieldIsWord(e.dom);
    PrintedFieldIsWord(e.month);
    PrintedFieldIsWord(e.dow);
    ParseOfWords(Words(e));
    assert ReplaceAll7(PrintField(e.dow)) == PrintField(e.dow);
    StarText(e.dom);
    StarText(e.dow);
  }

  /** Every documented expression is accepted and its schedule fires exactly when the documentation says. */
  lemma ParseOfPrint(e: Expr)
    requires e.Legal()
    ensures ParseSpec(e.Print()).Parsed?
    ensures var s := ParseSpec(e.Print()).schedule;
            s.Valid() && s.String() == e.Print() && forall t: Moment :: t.Valid() ==> (s.Matches(t) <==> Fires(e, t))
  {
    ParsesPrinted(e);
    forall t: Moment | t.Valid() ensures ParseSpec(e.Print()).schedule.Matches(t) <==> Fires(e, t) {
      MatchesPrinted(e, t);
    }
  }

  /** Every printed expression is accepted, its fields with the slots of their items. */
  lemma ParsesPrinted(e: Expr)
    requires e.Legal()
    ensures ParseSpec(e.Print()).Parsed?
    ensures var s := ParseSpec(e.Print()).schedule;
      && s.Valid() && s.String() == e.Print() && s.domStar == IsStar(e.dom) && s.dowStar == IsStar(e.dow)
      && (forall v :: 0 <= v < 60 ==> (s.minute[v] <==> FieldDenotes(e.minute, 0, 59, v)))
      && (forall v :: 0 <= v < 24 ==> (s.hour[v] <==> FieldDenotes(e.hour, 0, 23, v)))
      && (forall v :: 1 <= v < 32 ==> (s.dom[v] <==> FieldDenotes(e.dom, 1, 31, v)))
      && (forall v :: 1 <= v < 13 ==> (s.month[v] <==> FieldDenotes(e.month, 1, 12, v)))
      && (forall v :: 0 <= v < 7 ==> (s.dow[v] <==> FieldDenotes(e.dow, 0, 6, v)))
  {
    FieldsOfPrint(e);
    FieldOfPrint(e.minute, 0, 59);
    FieldOfPrint(e.hour, 0, 23);
    FieldOfPrint(e.dom, 1, 31);
    FieldOfPrint(e.month, 1, 12);
    FieldOfPrint(e.dow, 0, 6);
  }

  lemma MatchesPrinted(e: Expr, t: Moment)
    requires e.Legal() && t.Valid()
    ensures ParseSpec(e.Print()).Parsed? && ParseSpec(e.Print()).schedule.Valid()
    ensures ParseSpec(e.Print()).schedule.Matches(t) <==> Fires(e, t)
  {
    ParsesPrinted(e);
    if IsStar(e.dom) {
      StarDenotesAll(e.dom, 1, 31, t.day);
    }
    if IsStar(e.dow) {
      StarDenotesAll(e.dow, 0, 6, t.weekday);
    }
  }

  /** Parsing the text a schedule remembers gives the schedule back. */
  lemma ParseOfString(text: string)
    requires ParseSpec(text).Parsed?
    ensures ParseSpec(ParseSpec(text).schedule.String()) == ParseSpec(text)
  {
    TrimSpaceIdempotent(text);
  }

  // ---- Sevens in the day of week ----

  /** The digits of a number after the day-of-week text was rewritten. */
  function SevenDigits(n: nat): (s: string)
    ensures Digits(s)
  {
    ReplaceAll7(Show(n))
  }

  /** The number that n becomes: every digit 7 of it is read as 0. */
  function Seven(n: nat): nat {
    Decimal(SevenDigits(n))
  }

  /** Digit by digit: each 7 counts as 0 in its place. */
  lemma SevenDigitByDigit(n: nat)
    ensures Seven(n) == (if n < 10 then 0 else 10 * Seven(n / 10)) + (if n % 10 == 7 then 0 else n % 10)
  {
    var d, last := SevenDigits(n), ('0' as int + n % 10) as char;
    assert Show(n)[|d| - 1] == last;
    if n < 10 {
      assert |d| == 1 && d[..0] == "";
      assert Decimal(d) == 10 * Decimal(d[..0]) + DigitValue(d[0]);
    } else {
      var high := Show(n / 10);
      assert Show(n) == high + [last];
      assert d[..|d| - 1] == SevenDigits(n / 10);
    }
  }

  lemma SevenOfDigit(n: nat)
    requires n < 10
    ensures Seven(n) == if n == 7 then 0 else n
  {
    SevenDigitByDigit(n);
  }

  lemma SeventyOne()
    ensures Seven(71) == 1
  {
    SevenDigitByDigit(71);
    SevenDigitByDigit(7);
  }

  function RewriteSeven(i: Item): Item {
    Item(match i.base case Star => Star case One(n) => One(Seven(n)) case Range(l, h) => Range(Seven(l), Seven(h)),
         if i.step.Some? then Some(Seven(i.step.value)) else None)
  }

  // The item as it is written after the rewriting.
  function RewrittenText(i: Item): Written {
    Written(match i.base
            case Star => WrittenStar
            case One(n) => WrittenOne(SevenDigits(n))
            case Range(lo, hi) => WrittenRange(SevenDigits(lo), SevenDigits(hi)),
            if i.step.None? then None else Some(SevenDigits(i.step.value)))
  }

  lemma ReplaceAcross(a: string, c: char, b: string)
    requires c != '7'
    ensures ReplaceAll7(a + [c] + b) == ReplaceAll7(a) + [c] + ReplaceAll7(b)
  {
  }

  /** The alias for Sunday is a rewriting of text: every digit 7 of every number of the item becomes 0. */
  lemma RewriteSevenInText(i: Item)
    ensures ReplaceAll7(i.Print()) == RewrittenText(i).Text()
    ensures RewrittenText(i).Ok() && RewrittenText(i).Meant() == RewriteSeven(i)
  {
    assert ReplaceAll7(i.PrintBase()) == RewrittenText(i).BaseText() by {
      match i.base
      case Star =>
      case One(n) =>
      case Range(l, h) => ReplaceAcross(Show(l), '-', Show(h));
    }
    if i.step.Some? {
      ReplaceAcross(i.PrintBase(), '/', Show(i.step.value));
    }
  }

  /** What the documented alias promises for an item over 0..7: its values, with 7 read as Sunday. */
  ghost predicate AliasDenotes(i: Item, v: nat) {
    v <= 6 && (Denotes(i, 0, 7, v) || (v == 0 && Denotes(i, 0, 7, 7)))
  }

  /** v is one of lo, lo + step, ... up to hi. */
  predicate Hits(lo: int, hi: int, step: int, v: int)
    requires step > 0
  {
    lo <= v <= hi && (v - lo) % step == 0
  }

  lemma NthIsMultiple(lo: int, step: int, v: int)
    requires step > 0
    ensures (exists k: nat :: v == Nth(lo, step, k)) <==> v >= lo && (v - lo) % step == 0
  {
    if v >= lo && (v - lo) % step == 0 {
      var k: nat := (v - lo) / step;
      assert v == Nth(lo, step, k);
    }
    if k: nat :| v == Nth(lo, step, k) {
      MultipleOf(k, step);
    }
  }

  lemma MultipleOf(k: nat, step: int)
    requires step > 0
    ensures k * step >= 0 && (k * step) % step == 0
  {
    var n := k * step;
    var q, r := n / step, n % step;
    Distribute(k, q, step);
    SmallMultiple(k - q, step, r);
  }

  lemma Distribute(a: int, b: int, c: int)
    ensures (a - b) * c == a * c - b * c
  {
  }

  // The only multiple of step in 0..step-1 is zero.
  lemma SmallMultiple(d: int, step: int, r: int)
    requires step > 0 && 0 <= r < step && d * step == r
    ensures r == 0
  {
    AtLeast(d, step);
    AtLeast(-d, step);
    assert (-d) * step == -(d * step);
  }

  lemma AtLeast(d: int, step: int)
    requires step > 0
    ensures d >= 1 ==> d * step >= step
  {
    if d >= 1 {
      assert d * step == (d - 1) * step + step && (d - 1) * step >= 0;
    }
  }

  lemma ProgressionHits(lo: int, hi: int, step: int, v: int)
    requires step > 0
    ensures v in Progression(lo, hi, step) <==> Hits(lo, hi, step, v)
  {
    ProgressionMembers(lo, hi, step, v);
    NthIsMultiple(lo, step, v);
  }

  lemma AliasHits(i: Item, v: nat)
    requires i.Step() > 0
    ensures AliasDenotes(i, v) <==>
      v <= 6 && (Hits(i.Lo(0), i.Hi(7), i.Step(), v) || (v == 0 && Hits(i.Lo(0), i.Hi(7), i.Step(), 7)))
  {
    NthIsMultiple(i.Lo(0), i.Step(), v);
    NthIsMultiple(i.Lo(0), i.Step(), 7);
  }

  /**
   * Exactly these items over 0..7 keep their documented meaning when their sevens are rewritten. What is then read must
   * be legal and must not panic; a step below 8 must not reach 7 from anywhere but Sunday, and a longer one, which
   * reaches nothing, must still reach nothing as it is rewritten.
   */
  predicate KeepsSeven(i: Item) {
    var j := RewriteSeven(i);
    && j.Legal(0, 6) && j.Lo(0) + j.Step() <= MAX_INT
    && if i.Step() < 8 then
         match i.base
         case Star => true
         case One(n) => i.Step() == 1 || n == 0 || (n != 7 && (7 - n) % i.Step() != 0)
         case Range(l, h) => h < 7 || l == 7
       else j.Hi(6) < j.Lo(0) + j.Step()
  }

  // The part as the parser reads it means what is documented for the item.
  ghost predicate ReadAsDocumented(i: Item) {
    var r := ReadPart(ReplaceAll7(i.Print()), 0, 6);
    r.Steps? && r.step > 0 && forall v: nat :: v in Progression(r.lo, r.hi, r.step) <==> AliasDenotes(i, v)
  }

  /** Every day-of-week item, with numbers of any size: what is read is the item with its numbers rewritten. */
  lemma ReadRewritten(i: Item)
    ensures var j := RewriteSeven(i);
      ReadPart(ReplaceAll7(i.Print()), 0, 6) ==
        if !j.Legal(0, 6) || j.Step() > MAX_INT then BadPart
        else if j.Lo(0) + j.Step() > MAX_INT then PartPanics
        else Steps(j.Lo(0), j.Hi(6), j.Step())
  {
    RewriteSevenInText(i);
    PartOfText(RewrittenText(i), 0, 6);
  }

  /**
   * For every item over 0..7, with a step of any size: it is read with its documented meaning, 7 being Sunday, exactly
   * if KeepsSeven.
   */
  lemma DayOfWeekSeven(i: Item)
    requires i.Legal(0, 7)
    ensures ReadAsDocumented(i) <==> KeepsSeven(i)
  {
    ReadRewritten(i);
    Ends(i);
    if KeepsSeven(i) {
      SevenRead(i);
    } else if RewriteSeven(i).Legal(0, 6) && RewriteSeven(i).Lo(0) + RewriteSeven(i).Step() <= MAX_INT {
      SevenLost(i);
    }
  }

  // The numbers of an item over 0..7 but for its step are single digits.
  lemma Ends(i: Item)
    requires i.Legal(0, 7)
    ensures RewriteSeven(i).Lo(0) == if i.Lo(0) == 7 then 0 else i.Lo(0)
    ensures i.base.Range? ==> RewriteSeven(i).Hi(6) == if i.base.hi == 7 then 0 else i.base.hi
    ensures i.Step() < 8 ==> RewriteSeven(i).Step() == if i.Step() == 7 then 0 else i.Step()
  {
    match i.base
    case Star =>
    case One(n) => SevenOfDigit(n);
    case Range(l, h) => SevenOfDigit(l); SevenOfDigit(h);
    if i.Step() < 8 {
      SevenOfDigit(i.Step());
    }
  }

  lemma SevenRead(i: Item)
    requires i.Legal(0, 7) && KeepsSeven(i)
    ensures ReadAsDocumented(i)
  {
    var j := RewriteSeven(i);
    ReadRewritten(i);
    Ends(i);
    forall v: nat ensures v in Progression(j.Lo(0), j.Hi(6), j.Step()) <==> AliasDenotes(i, v) {
      ProgressionHits(j.Lo(0), j.Hi(6), j.Step(), v);
      AliasHits(i, v);
      if i.Step() < 8 {
        ShortStepKept(i, v);
      } else {
        LongStep(i, v);
        OnlyFirst(j.Lo(0), j.Hi(6), j.Step(), v);
      }
    }
  }

  lemma ShortStepKept(i: Item, v: nat)
    requires i.Legal(0, 7) && KeepsSeven(i) && i.Step() < 8
    ensures var j := RewriteSeven(i);
      Hits(j.Lo(0), j.Hi(6), j.Step(), v) <==>
        v <= 6 && (Hits(i.Lo(0), i.Hi(7), i.Step(), v) || (v == 0 && Hits(i.Lo(0), i.Hi(7), i.Step(), 7)))
  {
    Ends(i);
  }

  /** A step that leaves the range at once. */
  lemma OnlyFirst(lo: int, hi: int, step: int, v: int)
    requires step > 0 && lo <= hi < lo + step
    ensures Hits(lo, hi, step, v) <==> v == lo
  {
    if lo <= v <= hi {
      SmallRemainder(v - lo, step);
    }
    SmallRemainder(0, step);
  }

  lemma SmallRemainder(a: int, step: int)
    requires 0 <= a < step
    ensures a % step == a
  {
  }

  /** With a step of 8 or more an item over 0..7 denotes its first value only. */
  lemma LongStep(i: Item, v: nat)
    requires i.Legal(0, 7) && i.Step() >= 8
    ensures AliasDenotes(i, v) <==> v == RewriteSeven(i).Lo(0)
  {
    Ends(i);
    AliasHits(i, v);
    OnlyFirst(i.Lo(0), i.Hi(7), i.Step(), v);
    OnlyFirst(i.Lo(0), i.Hi(7), i.Step(), 7);
  }

  /** The value that tells the two meanings apart: Sunday, or the second one that is read. */
  lemma SevenLost(i: Item)
    requires i.Legal(0, 7) && !KeepsSeven(i)
    requires RewriteSeven(i).Legal(0, 6) && RewriteSeven(i).Lo(0) + RewriteSeven(i).Step() <= MAX_INT
    ensures !ReadAsDocumented(i)
  {
    var j := RewriteSeven(i);
    ReadRewritten(i);
    Ends(i);
    var sunday := i.Step() < 8 && i.base.One? && i.base.n != 7;
    var v: nat := if sunday then 0 else j.Lo(0) + j.Step();
    ProgressionHits(j.Lo(0), j.Hi(6), j.Step(), v);
    AliasHits(i, v);
    if i.Step() >= 8 {
      LongStep(i, v);
    } else {
      ShortStepLost(i, v);
    }
    SecondHit(j.Lo(0), j.Hi(6), j.Step());
  }

  lemma SecondHit(lo: int, hi: int, step: int)
    requires step > 0
    ensures lo + step <= hi ==> Hits(lo, hi, step, lo + step)
  {
  }

  lemma ShortStepLost(i: Item, v: nat)
    requires i.Legal(0, 7) && !KeepsSeven(i) && i.Step() < 8
    requires RewriteSeven(i).Legal(0, 6) && RewriteSeven(i).Lo(0) + RewriteSeven(i).Step() <= MAX_INT
    requires v == if i.base.One? && i.base.n != 7 then 0 else RewriteSeven(i).Lo(0) + RewriteSeven(i).Step()
    ensures var j := RewriteSeven(i);
      !(Hits(j.Lo(0), j.Hi(6), j.Step(), v) <==>
        v <= 6 && (Hits(i.Lo(0), i.Hi(7), i.Step(), v) || (v == 0 && Hits(i.Lo(0), i.Hi(7), i.Step(), 7))))
  {
    Ends(i);
    var step := i.Step();
    match i.base
    case Star =>
    case One(n) =>
      SecondHit(0, 6, step);
    case Range(l, h) =>
      SecondHit(0, 7, step);
  }

  // ---- What is accepted, whatever its numbers ----

  /** The number has no digits but 0 and 7. */
  predicate Vanishes(n: nat) {
    n == 0 || ((n % 10 == 0 || n % 10 == 7) && Vanishes(n / 10))
  }

  /** The number becomes a weekday: a digit below 8 behind nothing but zeros and sevens, such as 3, 73 or 707. */
  predicate BecomesDay(n: nat) {
    n % 10 < 8 && Vanishes(n / 10)
  }

  lemma {:induction false} SevensVanish(n: nat)
    ensures Seven(n) == 0 <==> Vanishes(n)
  {
    SevenDigitByDigit(n);
    if n >= 10 {
      SevensVanish(n / 10);
    }
  }

  lemma DayOfNumber(n: nat)
    ensures Seven(n) <= 6 <==> BecomesDay(n)
    ensures BecomesDay(n) ==> Seven(n) == if n % 10 == 7 then 0 else n % 10
  {
    SevenDigitByDigit(n);
    if n >= 10 {
      SevensVanish(n / 10);
    }
  }

  /** The items that are accepted, by their digits. */
  predicate AcceptedByDigits(i: Item) {
    && !Vanishes(i.Step()) && Seven(i.Step()) <= MAX_INT
    && match i.base
       case Star => true
       case One(n) => BecomesDay(n)
       case Range(l, h) => BecomesDay(l) && BecomesDay(h) && (l % 10 in {0, 7} || l % 10 <= h % 10 < 7)
  }

  lemma LegalByDigits(i: Item)
    ensures AcceptedByDigits(i) <==> RewriteSeven(i).Legal(0, 6) && RewriteSeven(i).Step() <= MAX_INT
  {
    RewrittenStep(i);
    match i.base
    case Star =>
    case One(n) => DayOfNumber(n);
    case Range(l, h) => DayOfNumber(l); DayOfNumber(h);
  }

  lemma RewrittenStep(i: Item)
    ensures RewriteSeven(i).Step() == Seven(i.Step())
    ensures Seven(i.Step()) == 0 <==> Vanishes(i.Step())
  {
    SevensVanish(i.Step());
    SevenOfDigit(1);
  }

  /**
   * Every item, also one beyond 0..7, is accepted exactly by its digits: its step must have one that is neither 0 nor
   * 7, and its other numbers must become weekdays in order. It then panics exactly if its first value and its step add
   * up to more than an `int`.
   */
  lemma AcceptedSeven(i: Item)
    ensures var r, j := ReadPart(ReplaceAll7(i.Print()), 0, 6), RewriteSeven(i);
      && (r != BadPart <==> AcceptedByDigits(i))
      && (r == PartPanics <==> AcceptedByDigits(i) && j.Lo(0) + j.Step() > MAX_INT)
  {
    ReadRewritten(i);
    LegalByDigits(i);
  }

  /** With single digits, only ranges that start in 7 and go on from Sunday are accepted beyond 0..7. */
  lemma BeyondSeven(i: Item)
    requires !i.Legal(0, 7) && SingleDigits(i)
    ensures ReadPart(ReplaceAll7(i.Print()), 0, 6) != BadPart <==>
      i.base.Range? && i.base.lo == 7 && i.base.hi < 7 && i.Step() != 0 && i.Step() != 7
  {
    ReadRewritten(i);
    SingleDigitSevens(i);
  }

  /** With longer numbers there are others: `71` is read as Monday, and a step of 71 as a step of 1. */
  lemma SeventyOneIsMonday()
    ensures !Item(One(71), None).Legal(0, 7)
    ensures ReadPart(ReplaceAll7(Item(One(71), None).Print()), 0, 6) == Steps(1, 1, 1)
    ensures Item(Star, Some(71)).Legal(0, 7) && !KeepsSeven(Item(Star, Some(71)))
    ensures ReadPart(ReplaceAll7(Item(Star, Some(71)).Print()), 0, 6) == Steps(0, 6, 1)
  {
    SeventyOne();
    ReadRewritten(Item(One(71), None));
    ReadRewritten(Item(Star, Some(71)));
  }

  predicate SingleDigits(i: Item) {
    i.Step() < 10 && match i.base case Star => true case One(n) => n < 10 case Range(l, h) => l < 10 && h < 10
  }

  lemma SingleDigitSevens(i: Item)
    requires SingleDigits(i)
    ensures RewriteSeven(i).Step() == if i.Step() == 7 then 0 else i.Step()
    ensures i.base.One? ==> RewriteSeven(i).base == One(if i.base.n == 7 then 0 else i.base.n)
    ensures i.base.Range? ==>
      RewriteSeven(i).base == Range(if i.base.lo == 7 then 0 else i.base.lo, if i.base.hi == 7 then 0 else i.base.hi)
  {
    SevenOfDigit(i.Step());
    match i.base
    case Star =>
    case One(n) => SevenOfDigit(n);
    case Range(l, h) => SevenOfDigit(l); SevenOfDigit(h);
  }

  /** Only the literal star turns the either-day rule off: a starred step of 1 in the day field fires every day. */
  lemma StarStepIsNotStar(e: Expr, t: Moment)
    requires e.Legal() && t.Valid() && e.dom == [Item(Star, Some(1))]
    ensures !IsStar(e.dow) ==>
      (Fires(e, t) <==> FieldDenotes(e.minute, 0, 59, t.minute) && FieldDenotes(e.hour, 0, 23, t.hour)
                        && FieldDenotes(e.month, 1, 12, t.month))
    ensures var star := e.(dom := [Item(Star, None)]);
      Fires(star, t) <==> Fires(e, t) && FieldDenotes(e.dow, 0, 6, t.weekday)
  {
    var star := [Item(Star, None)];
    StarDenotesAll(star, 1, 31, t.day);
    assert t.day == Nth(1, 1, t.day - 1);
    assert Denotes(e.dom[0], 1, 31, t.day);
  }
}
