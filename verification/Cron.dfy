/** The five-field cron parser and matcher of internal/scheduler/cron.go. */
module Cron {
  import opened Text

  /** The calendar fields of a wall-clock minute that a schedule looks at; weekday 0 is Sunday. */
  datatype Moment = Moment(minute: nat, hour: nat, day: nat, month: nat, weekday: nat) {
    predicate Valid() {
      minute < 60 && hour < 24 && 1 <= day <= 31 && 1 <= month <= 12 && weekday < 7
    }
  }

  datatype Schedule = Schedule(minute: seq<bool>, hour: seq<bool>, dom: seq<bool>, month: seq<bool>, dow: seq<bool>,
                               domStar: bool, dowStar: bool, original: string)
  {
    predicate Valid() {
      |minute| == 60 && |hour| == 24 && |dom| == 32 && |month| == 13 && |dow| == 7
    }

    function String(): string { original }

    predicate Matches(t: Moment)
      requires Valid() && t.Valid()
    {
      if !minute[t.minute] || !hour[t.hour] || !month[t.month] then false
      else
        var domOK := dom[t.day];
        var dowOK := dow[t.weekday];
        if domStar && dowStar then true
        else if domStar then dowOK
        else if dowStar then domOK
        else domOK || dowOK
    }
  }

  // A part is malformed, or makes the slot loop index outside the table, or denotes lo, lo+step, ... <= hi.
  datatype PartResult = BadPart | PartPanics | Steps(lo: int, hi: int, step: int)

  datatype FieldResult = BadField | FieldPanics | Slots(slots: set<int>)

  // How a parser over an output table ends: filled, an error value, or an index outside the table.
  datatype Verdict = Filled | Malformed | Panics

  function PartVerdict(r: PartResult): Verdict {
    if r.BadPart? then Malformed else if r.PartPanics? then Panics else Filled
  }

  function FieldVerdict(r: FieldResult): Verdict {
    if r.BadField? then Malformed else if r.FieldPanics? then Panics else Filled
  }

  datatype ParseResult = Rejected | Panicked | Parsed(schedule: Schedule)

  /** The bounds a part names, before the range check. */
  function Bounds(body: string, step: int, min: int, max: int): Option<(int, int)> {
    var dash := IndexByte(body, '-');
    if body == "*" then Some((min, max))
    else if dash >= 0 then
      var l := Atoi(body[..dash]);
      var h := Atoi(body[dash + 1..]);
      if l.None? || h.None? then None else Some((l.value, h.value))
    else
      var n := Atoi(body);
      if n.None? then None else Some((n.value, if step > 1 then max else n.value))
  }

  function StepOf(part: string): Option<int> {
    var slash := IndexByte(part, '/');
    if slash < 0 then Some(1)
    else
      var s := Atoi(part[slash + 1..]);
      if s.None? || s.value <= 0 then None else s
  }

  function BodyOf(part: string): string {
    var slash := IndexByte(part, '/');
    if slash < 0 then part else part[..slash]
  }

  /** What a part means: a progression inside min..max, unless its first addition leaves the `int` range. */
  function ReadPart(part: string, min: int, max: int): PartResult {
    var step := StepOf(part);
    if step.None? then BadPart
    else
      var b := Bounds(BodyOf(part), step.value, min, max);
      if b.None? then BadPart
      else
        var (lo, hi) := b.value;
        if lo < min || hi > max || lo > hi then BadPart
        else if lo + step.value > MAX_INT then PartPanics
        else Steps(lo, hi, step.value)
  }

  /** lo, lo + step, ... up to hi. */
  function Progression(lo: int, hi: int, step: int): set<int>
    requires step > 0
    decreases hi - lo
  {
    if lo > hi then {} else {lo} + Progression(lo + step, hi, step)
  }

  function Nth(lo: int, step: int, k: nat): int {
    lo + k * step
  }

  /** The slots of a progression are the values lo + k*step that do not exceed hi. */
  lemma {:induction false} ProgressionMembers(lo: int, hi: int, step: int, v: int)
    requires step > 0
    ensures v in Progression(lo, hi, step) <==> v <= hi && exists k: nat :: v == Nth(lo, step, k)
    decreases hi - lo
  {
    if lo <= hi {
      var next := lo + step;
      ProgressionMembers(next, hi, step, v);
      assert lo == Nth(lo, step, 0);
      if k: nat :| v == Nth(next, step, k) {
        assert v == Nth(lo, step, k + 1);
      }
      if k: nat :| v == Nth(lo, step, k) && k > 0 {
        assert v == Nth(next, step, k - 1);
      }
    } else {
      forall k: nat ensures Nth(lo, step, k) > hi {
      }
    }
  }

  /** The union of the progressions of the parts; the first bad part decides otherwise. */
  function ReadParts(parts: seq<string>, min: int, max: int): FieldResult {
    if parts == [] then Slots({})
    else
      match ReadPart(parts[0], min, max)
      case BadPart => BadField
      case PartPanics => FieldPanics
      case Steps(lo, hi, step) =>
        match ReadParts(parts[1..], min, max)
        case Slots(rest) => Slots((if step > 0 then Progression(lo, hi, step) else {}) + rest)
        case other => other
  }

  function ReadField(field: string, min: int, max: int): FieldResult {
    ReadParts(Split(field, ','), min, max)
  }

  function ReplaceAll7(s: string): (r: string)
    ensures |r| == |s|
    ensures forall k :: 0 <= k < |s| ==> r[k] == if s[k] == '7' then '0' else s[k]
  {
    seq(|s|, k requires 0 <= k < |s| => if s[k] == '7' then '0' else s[k])
  }

  function Row(n: nat, slots: set<int>): (row: seq<bool>)
    ensures |row| == n
    ensures forall v :: 0 <= v < n ==> (row[v] <==> v in slots)
  {
    seq(n, v => v in slots)
  }

  /** The result of parsing five fields in order; the first field that is not a slot set decides. */
  function Combine(m: FieldResult, h: FieldResult, d: FieldResult, mo: FieldResult, w: FieldResult,
                   domStar: bool, dowStar: bool, original: string): ParseResult
  {
    if !m.Slots? then Failure(m)
    else if !h.Slots? then Failure(h)
    else if !d.Slots? then Failure(d)
    else if !mo.Slots? then Failure(mo)
    else if !w.Slots? then Failure(w)
    else Parsed(Schedule(Row(60, m.slots), Row(24, h.slots), Row(32, d.slots), Row(13, mo.slots), Row(7, w.slots),
                         domStar, dowStar, original))
  }

  function Failure(f: FieldResult): ParseResult {
    if f.FieldPanics? then Panicked else Rejected
  }

  function ParseSpec(text: string): ParseResult {
    var spec := TrimSpace(text);
    var f := Fields(spec);
    if |f| != 5 then Rejected
    else
      Combine(ReadField(f[0], 0, 59), ReadField(f[1], 0, 23), ReadField(f[2], 1, 31), ReadField(f[3], 1, 12),
              ReadField(ReplaceAll7(f[4]), 0, 6), f[2] == "*", f[4] == "*", spec)
  }

  // ---- The in-place parser ----

  // Two's-complement wrap of a 64-bit `int` after one addition of two in-range values.
  function Wrap(v: int): (w: int)
    ensures w == v || w == v - 0x1_0000_0000_0000_0000
    ensures -MAX_INT - 1 <= v <= 2 * MAX_INT ==> -MAX_INT - 1 <= w <= MAX_INT
  {
    if v > MAX_INT then v - 2 * (MAX_INT + 1) else v
  }

  lemma {:induction false} ProgressionRange(lo: int, hi: int, step: int)
    requires step > 0
    ensures forall v :: v in Progression(lo, hi, step) ==> lo <= v <= hi
    decreases hi - lo
  {
    if lo <= hi {
      ProgressionRange(lo + step, hi, step);
    }
  }

  /**
   * The slot loop with machine arithmetic. Every write is in bounds, the loop ends, and it indexes outside
   * the table exactly when the first addition of the step overflows.
   */
  method FillSlots(lo: int, hi: int, step: int, out: array<bool>) returns (panics: bool)
    requires 0 <= lo <= hi < out.Length <= 64
    requires 1 <= step <= MAX_INT
    modifies out
    ensures panics <==> lo + step > MAX_INT
    ensures !panics ==> forall v :: 0 <= v < out.Length ==>
      (out[v] <==> old(out[v]) || v in Progression(lo, hi, step))
  {
    var v := lo;
    ghost var exact := lo;
    ghost var done: set<int> := {};
    while v <= hi
      invariant lo <= exact && v == Wrap(exact) && exact <= MAX_INT + 64
      invariant exact == lo || exact == lo + step || exact <= hi + step <= MAX_INT
      invariant lo + step > MAX_INT ==> exact == lo || exact == lo + step
      invariant Progression(lo, hi, step) == done + Progression(exact, hi, step)
      invariant forall u :: 0 <= u < out.Length ==> (out[u] <==> old(out[u]) || u in done)
      decreases if v < 0 then 0 else 1 + hi - v
    {
      if v < 0 || v >= out.Length {
        return true;
      }
      out[v] := true;
      done := done + {exact};
      v := Wrap(v + step);
      exact := exact + step;
    }
    return false;
  }

  method ReadBounds(body: string, step: int, min: int, max: int) returns (r: Option<(int, int)>)
    ensures r == Bounds(body, step, min, max)
  {
    var lo, hi := min, max;
    var dash := IndexByte(body, '-');
    if body == "*" {
    } else if dash >= 0 {
      var l := Atoi(body[..dash]);
      if l.None? {
        return None;
      }
      var h := Atoi(body[dash + 1..]);
      if h.None? {
        return None;
      }
      lo, hi := l.value, h.value;
    } else {
      var n := Atoi(body);
      if n.None? {
        return None;
      }
      lo, hi := n.value, n.value;
      if step > 1 {
        hi := max;
      }
    }
    return Some((lo, hi));
  }

  method ParsePart(part: string, min: int, max: int, out: array<bool>) returns (verdict: Verdict)
    requires 0 <= min <= max < out.Length <= 64
    modifies out
    ensures verdict == PartVerdict(ReadPart(part, min, max))
    ensures verdict == Malformed <==> ReadPart(part, min, max) == BadPart
    ensures verdict == Panics <==> ReadPart(part, min, max) == PartPanics
    ensures verdict.Malformed? ==> out[..] == old(out[..])
    ensures match ReadPart(part, min, max)
            case Steps(lo, hi, step) =>
              step > 0 && min <= lo <= hi <= max
              && forall v :: 0 <= v < out.Length ==> (out[v] <==> old(out[v]) || v in Progression(lo, hi, step))
            case _ => true
  {
    var step := 1;
    var body := part;
    var slash := IndexByte(part, '/');
    if slash >= 0 {
      var s := Atoi(part[slash + 1..]);
      if s.None? || s.value <= 0 {
        return Malformed;
      }
      step := s.value;
      body := part[..slash];
    }
    var bounds := ReadBounds(body, step, min, max);
    if bounds.None? {
      return Malformed;
    }
    var (lo, hi) := bounds.value;
    if lo < min || hi > max || lo > hi {
      return Malformed;
    }
    var panics := FillSlots(lo, hi, step, out);
    return if panics then Panics else Filled;
  }

  /** Fills `out` with exactly the slots the field denotes, on top of what was there. */
  method ParseField(field: string, min: int, max: int, out: array<bool>) returns (verdict: Verdict)
    requires 0 <= min <= max < out.Length <= 64
    modifies out
    ensures verdict == FieldVerdict(ReadField(field, min, max))
    ensures verdict == Malformed <==> ReadField(field, min, max) == BadField
    ensures verdict == Panics <==> ReadField(field, min, max) == FieldPanics
    ensures match ReadField(field, min, max)
            case Slots(slots) => forall v :: 0 <= v < out.Length ==> (out[v] <==> old(out[v]) || v in slots)
            case _ => true
  {
    if field == "" {
      return Malformed;
    }
    var parts := Split(field, ',');
    ghost var seen: set<int> := {};
    for i := 0 to |parts|
      invariant ReadField(field, min, max) == Prepend(seen, ReadParts(parts[i..], min, max))
      invariant forall v :: 0 <= v < out.Length ==> (out[v] <==> old(out[v]) || v in seen)
    {
      assert parts[i..][0] == parts[i] && parts[i..][1..] == parts[i + 1..];
      var p := ParsePart(parts[i], min, max, out);
      if !p.Filled? {
        return p;
      }
      ghost var read := ReadPart(parts[i], min, max);
      ghost var slots := Progression(read.lo, read.hi, read.step);
      PrependTwice(seen, slots, ReadParts(parts[i + 1..], min, max));
      seen := seen + slots;
    }
    return Filled;
  }

  ghost function Prepend(seen: set<int>, r: FieldResult): FieldResult {
    if r.Slots? then Slots(seen + r.slots) else r
  }

  lemma PrependTwice(a: set<int>, b: set<int>, r: FieldResult)
    ensures Prepend(a, Prepend(b, r)) == Prepend(a + b, r)
  {
    if r.Slots? {
      assert a + (b + r.slots) == a + b + r.slots;
    }
  }

  function FailureOf(v: Verdict): ParseResult {
    if v.Panics? then Panicked else Rejected
  }

  /** Parses one field into a fresh table of `n` slots. */
  method ParseInto(field: string, min: int, max: int, n: nat) returns (verdict: Verdict, row: seq<bool>)
    requires 0 <= min <= max < n <= 64
    ensures verdict == FieldVerdict(ReadField(field, min, max))
    ensures verdict == Malformed <==> ReadField(field, min, max) == BadField
    ensures verdict == Panics <==> ReadField(field, min, max) == FieldPanics
    ensures match ReadField(field, min, max) case Slots(slots) => row == Row(n, slots) case _ => true
  {
    var out := new bool[n](_ => false);
    verdict := ParseField(field, min, max, out);
    row := out[..];
  }

  method Parse(text: string) returns (r: ParseResult)
    ensures r == ParseSpec(text)
  {
    var spec := TrimSpace(text);
    var fields := Fields(spec);
    if |fields| != 5 {
      return Rejected;
    }
    var m, minute := ParseInto(fields[0], 0, 59, 60);
    if !m.Filled? {
      return FailureOf(m);
    }
    var h, hour := ParseInto(fields[1], 0, 23, 24);
    if !h.Filled? {
      return FailureOf(h);
    }
    var d, dom := ParseInto(fields[2], 1, 31, 32);
    if !d.Filled? {
      return FailureOf(d);
    }
    var mo, month := ParseInto(fields[3], 1, 12, 13);
    if !mo.Filled? {
      return FailureOf(mo);
    }
    var w, dow := ParseInto(ReplaceAll7(fields[4]), 0, 6, 7);
    if !w.Filled? {
      return FailureOf(w);
    }
    return Parsed(Schedule(minute, hour, dom, month, dow, fields[2] == "*", fields[4] == "*", spec));
  }
}
