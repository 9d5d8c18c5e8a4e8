/** What any accepted cron text means, however it is written. */
module CronMeaning {
  import opened Text
  import opened Cron

  /** The part is accepted and v is one of its values lo, lo + step, ... up to hi. */
  ghost predicate PartHas(part: string, min: int, max: int, v: int) {
    match ReadPart(part, min, max)
    case Steps(lo, hi, step) => v <= hi && exists k: nat :: v == Nth(lo, step, k)
    case _ => false
  }

  ghost predicate PartsHave(parts: seq<string>, min: int, max: int, v: int) {
    exists i :: 0 <= i < |parts| && PartHas(parts[i], min, max, v)
  }

  lemma ReadPartSteps(part: string, min: int, max: int)
    ensures var r := ReadPart(part, min, max);
      r.Steps? ==> r.step > 0 && min <= r.lo <= r.hi <= max
  {
  }

  /** The slots of accepted parts are the union of their values, and every part is accepted. */
  lemma {:induction false} SlotsOfParts(parts: seq<string>, min: int, max: int, v: int)
    requires ReadParts(parts, min, max).Slots?
    ensures v in ReadParts(parts, min, max).slots <==> PartsHave(parts, min, max, v)
    ensures forall i :: 0 <= i < |parts| ==> ReadPart(parts[i], min, max).Steps?
    ensures v in ReadParts(parts, min, max).slots ==> min <= v <= max
  {
    if parts != [] {
      var rest := parts[1..];
      var r := ReadPart(parts[0], min, max);
      ReadPartSteps(parts[0], min, max);
      SlotsOfParts(rest, min, max, v);
      ProgressionMembers(r.lo, r.hi, r.step, v);
      ProgressionRange(r.lo, r.hi, r.step);
      assert PartHas(parts[0], min, max, v) <==> v in Progression(r.lo, r.hi, r.step);
      assert forall i :: 0 <= i < |rest| ==> rest[i] == parts[i + 1];
      HeadOrRest(parts, min, max, v);
    }
  }

  lemma HeadOrRest(parts: seq<string>, min: int, max: int, v: int)
    requires parts != []
    ensures PartsHave(parts, min, max, v) <==> PartHas(parts[0], min, max, v) || PartsHave(parts[1..], min, max, v)
  {
    var rest := parts[1..];
    if PartsHave(rest, min, max, v) {
      var i :| 0 <= i < |rest| && PartHas(rest[i], min, max, v);
      assert PartHas(parts[i + 1], min, max, v);
    }
    if i :| 0 < i < |parts| && PartHas(parts[i], min, max, v) {
      assert PartHas(rest[i - 1], min, max, v);
    }
  }

  /** For every accepted field, however written: its slots are exactly the values of its comma-separated parts. */
  ghost predicate FieldHas(field: string, min: int, max: int, v: int) {
    PartsHave(Split(field, ','), min, max, v)
  }

  lemma SlotsOfField(field: string, min: int, max: int, v: int)
    requires ReadField(field, min, max).Slots?
    ensures v in ReadField(field, min, max).slots <==> FieldHas(field, min, max, v)
    ensures forall i :: 0 <= i < |Split(field, ',')| ==> ReadPart(Split(field, ',')[i], min, max).Steps?
    ensures v in ReadField(field, min, max).slots ==> min <= v <= max
  {
    SlotsOfParts(Split(field, ','), min, max, v);
  }

  lemma StarHasAll(min: nat, max: nat, v: nat)
    requires min <= v <= max && min + 1 <= MAX_INT
    ensures FieldHas("*", min, max, v)
  {
    assert Split("*", ',') == ["*"];
    assert IndexByte("*", '/') == -1;
    assert ReadPart("*", min, max) == Steps(min, max, 1);
    assert v == Nth(min, 1, v - min);
    assert PartHas(["*"][0], min, max, v);
  }

  /** The meaning of five fields: minute, hour and month, and both days if one is a literal star, otherwise either. */
  ghost predicate Means(f: seq<string>, t: Moment)
    requires |f| == 5
  {
    && FieldHas(f[0], 0, 59, t.minute) && FieldHas(f[1], 0, 23, t.hour) && FieldHas(f[3], 1, 12, t.month)
    && var dom, dow := FieldHas(f[2], 1, 31, t.day), FieldHas(ReplaceAll7(f[4]), 0, 6, t.weekday);
       if f[2] == "*" || f[4] == "*" then dom && dow else dom || dow
  }

  /** Every accepted text, in whatever form, matches exactly the moments that its fields mean. */
  lemma MatchesMeans(text: string, t: Moment)
    requires ParseSpec(text).Parsed?
    requires t.minute < 60 && t.hour < 24 && 1 <= t.day <= 31 && 1 <= t.month <= 12 && t.weekday < 7
    ensures var f := Fields(TrimSpace(text));
      |f| == 5 && ParseSpec(text).schedule.Valid() && (ParseSpec(text).schedule.Matches(t) <==> Means(f, t))
  {
    var f := Fields(TrimSpace(text));
    SlotsOfField(f[0], 0, 59, t.minute);
    SlotsOfField(f[1], 0, 23, t.hour);
    SlotsOfField(f[2], 1, 31, t.day);
    SlotsOfField(f[3], 1, 12, t.month);
    SlotsOfField(ReplaceAll7(f[4]), 0, 6, t.weekday);
    Tables(f, TrimSpace(text), t);
    if f[2] == "*" {
      StarHasAll(1, 31, t.day);
    }
    if f[4] == "*" {
      assert ReplaceAll7("*") == "*";
      StarHasAll(0, 6, t.weekday);
    }
  }

  // Matching in terms of the slots.
  lemma Tables(f: seq<string>, spec: string, t: Moment)
    requires |f| == 5 && t.Valid()
    requires ReadField(f[0], 0, 59).Slots? && ReadField(f[1], 0, 23).Slots? && ReadField(f[2], 1, 31).Slots?
    requires ReadField(f[3], 1, 12).Slots? && ReadField(ReplaceAll7(f[4]), 0, 6).Slots?
    ensures var s := Combine(ReadField(f[0], 0, 59), ReadField(f[1], 0, 23), ReadField(f[2], 1, 31),
                             ReadField(f[3], 1, 12), ReadField(ReplaceAll7(f[4]), 0, 6),
                             f[2] == "*", f[4] == "*", spec).schedule;
      s.Valid() && (s.Matches(t) <==>
        && t.minute in ReadField(f[0], 0, 59).slots && t.hour in ReadField(f[1], 0, 23).slots
        && t.month in ReadField(f[3], 1, 12).slots
        && var dom, dow := t.day in ReadField(f[2], 1, 31).slots, t.weekday in ReadField(ReplaceAll7(f[4]), 0, 6).slots;
           if f[2] == "*" then f[4] == "*" || dow else if f[4] == "*" then dom else dom || dow)
  {
  }

  // ---- Why a text is refused ----

  /** Part n is the first that is no progression, and fails in this way. */
  predicate PartFails(parts: seq<string>, min: int, max: int, n: nat, how: PartResult)
    requires n < |parts|
  {
    ReadPart(parts[n], min, max) == how && forall m :: 0 <= m < n ==> ReadPart(parts[m], min, max).Steps?
  }

  lemma {:induction false} FirstPartDecides(parts: seq<string>, min: int, max: int)
    ensures ReadParts(parts, min, max) == BadField <==>
      exists n :: 0 <= n < |parts| && PartFails(parts, min, max, n, BadPart)
    ensures ReadParts(parts, min, max) == FieldPanics <==>
      exists n :: 0 <= n < |parts| && PartFails(parts, min, max, n, PartPanics)
  {
    if parts != [] {
      var rest := parts[1..];
      FirstPartDecides(rest, min, max);
      if ReadPart(parts[0], min, max).Steps? {
        FailsLater(parts, min, max, BadPart);
        FailsLater(parts, min, max, PartPanics);
      } else {
        assert PartFails(parts, min, max, 0, ReadPart(parts[0], min, max));
        assert forall n, how :: 0 < n < |parts| ==> !PartFails(parts, min, max, n, how);
      }
    }
  }

  lemma FailsLater(parts: seq<string>, min: int, max: int, how: PartResult)
    requires parts != [] && ReadPart(parts[0], min, max).Steps? && !how.Steps?
    ensures (exists n :: 0 <= n < |parts| && PartFails(parts, min, max, n, how)) <==>
      exists n :: 0 <= n < |parts[1..]| && PartFails(parts[1..], min, max, n, how)
  {
    var rest := parts[1..];
    if n :| 0 <= n < |parts| && PartFails(parts, min, max, n, how) {
      assert forall m :: 0 <= m < n - 1 ==> rest[m] == parts[m + 1];
      assert PartFails(rest, min, max, n - 1, how);
    }
    if n :| 0 <= n < |rest| && PartFails(rest, min, max, n, how) {
      assert forall m :: 1 <= m < n + 1 ==> parts[m] == rest[m - 1];
      assert PartFails(parts, min, max, n + 1, how);
    }
  }

  // What the five fields are read as, with the bounds of each.
  function FieldsRead(f: seq<string>): (rs: seq<FieldResult>)
    requires |f| == 5
    ensures |rs| == 5
  {
    [ReadField(f[0], 0, 59), ReadField(f[1], 0, 23), ReadField(f[2], 1, 31), ReadField(f[3], 1, 12),
     ReadField(ReplaceAll7(f[4]), 0, 6)]
  }

  /** Field n is the first that fails, and fails in this way. */
  predicate FieldFails(rs: seq<FieldResult>, n: nat, how: FieldResult)
    requires n < |rs|
  {
    rs[n] == how && forall m :: 0 <= m < n ==> rs[m].Slots?
  }

  lemma FirstFieldDecides(rs: seq<FieldResult>, domStar: bool, dowStar: bool, spec: string)
    requires |rs| == 5
    ensures var r := Combine(rs[0], rs[1], rs[2], rs[3], rs[4], domStar, dowStar, spec);
      && (r == Rejected <==> exists n :: 0 <= n < 5 && FieldFails(rs, n, BadField))
      && (r == Panicked <==> exists n :: 0 <= n < 5 && FieldFails(rs, n, FieldPanics))
  {
    var n := if !rs[0].Slots? then 0 else if !rs[1].Slots? then 1 else if !rs[2].Slots? then 2
             else if !rs[3].Slots? then 3 else if !rs[4].Slots? then 4 else 5;
    if n < 5 {
      assert FieldFails(rs, n, rs[n]);
    }
  }

  /** A text is rejected, or makes the parser panic, by its first field that fails and in its way; or it lacks five. */
  lemma WhyRefused(text: string)
    ensures var f := Fields(TrimSpace(text));
      && (ParseSpec(text) == Rejected <==>
           |f| != 5 || exists n :: 0 <= n < 5 && FieldFails(FieldsRead(f), n, BadField))
      && (ParseSpec(text) == Panicked <==>
           |f| == 5 && exists n :: 0 <= n < 5 && FieldFails(FieldsRead(f), n, FieldPanics))
  {
    var f := Fields(TrimSpace(text));
    if |f| == 5 {
      FirstFieldDecides(FieldsRead(f), f[2] == "*", f[4] == "*", TrimSpace(text));
    }
  }
}
