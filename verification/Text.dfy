/** The string operations of Go's standard library that the modelled files call. */
module Text {

  datatype Option<+T> = None | Some(value: T)

  // The range of Go's `int` on the 64-bit platforms the program is built for.
  const MAX_INT := 0x7fff_ffff_ffff_ffff

  /** Index of the first `c` in `s`, or -1. */
  function IndexByte(s: string, c: char): (i: int)
    ensures -1 <= i < |s|
    ensures i == -1 <==> c !in s
    ensures i >= 0 ==> s[i] == c && c !in s[..i]
  {
    if s == "" then -1
    else if s[0] == c then 0
    else
      var i := IndexByte(s[1..], c);
      assert i >= 0 ==> s[..i + 1] == [s[0]] + s[1..][..i];
      if i < 0 then -1 else i + 1
  }

  lemma IndexOfFirst(a: string, c: char, b: string)
    requires c !in a
    ensures IndexByte(a + [c] + b, c) == |a|
  {
    var s := a + [c] + b;
    assert s[|a|] == c;
    assert forall k :: 0 <= k < |a| ==> s[k] == a[k] && s[k] != c;
    assert forall n :: |a| < n <= |s| ==> c == s[..n][|a|];
  }

  /** The pieces of `s` between occurrences of `sep`. */
  function Split(s: string, sep: char): (parts: seq<string>)
    ensures |parts| > 0
    ensures forall k :: 0 <= k < |parts| ==> sep !in parts[k]
    ensures Join(parts, sep) == s
  {
    var i := IndexByte(s, sep);
    if i < 0 then [s]
    else
      var rest := Split(s[i + 1..], sep);
      assert s == s[..i] + [sep] + s[i + 1..];
      assert ([s[..i]] + rest)[1..] == rest;
      [s[..i]] + rest
  }

  function Join(parts: seq<string>, sep: char): string
    requires |parts| > 0
  {
    if |parts| == 1 then parts[0] else parts[0] + [sep] + Join(parts[1..], sep)
  }

  /** Splitting undoes joining whenever no part contains the separator. */
  lemma {:induction false} SplitOfJoin(parts: seq<string>, sep: char)
    requires |parts| > 0
    requires forall k :: 0 <= k < |parts| ==> sep !in parts[k]
    ensures Split(Join(parts, sep), sep) == parts
  {
    if |parts| > 1 {
      var tail := parts[1..];
      var rest := Join(tail, sep);
      var s := parts[0] + [sep] + rest;
      assert forall k :: 0 <= k < |tail| ==> tail[k] == parts[k + 1];
      SplitOfJoin(tail, sep);
      SplitFirst(parts[0], sep, rest);
      assert parts == [parts[0]] + tail;
    }
  }

  lemma SplitFirst(a: string, sep: char, rest: string)
    requires sep !in a
    ensures Split(a + [sep] + rest, sep) == [a] + Split(rest, sep)
  {
    var s := a + [sep] + rest;
    IndexOfFirst(a, sep, rest);
    assert s[..|a|] == a && s[|a| + 1..] == rest;
  }

  function ToUpperChar(c: char): char {
    if 'a' <= c <= 'z' then c - 'a' + 'A' else c
  }

  function ToUpper(s: string): (u: string)
    ensures |u| == |s|
    ensures forall k :: 0 <= k < |s| ==> u[k] == ToUpperChar(s[k])
  {
    seq(|s|, k requires 0 <= k < |s| => ToUpperChar(s[k]))
  }

  /** The letters a to z become A to Z, in order, and no other character changes. */
  lemma UpperLetters(c: char)
    ensures 'a' <= c <= 'z' ==>
      'A' <= ToUpperChar(c) <= 'Z' && ToUpperChar(c) as int - 'A' as int == c as int - 'a' as int
    ensures c < 'a' || c > 'z' ==> ToUpperChar(c) == c
  {
  }

  // unicode.IsSpace
  predicate IsSpace(c: char) {
    c in "\t\n\r " || c == '\U{0B}' || c == '\U{0C}' || c == '\U{85}' || c == '\U{A0}' || c == '\U{1680}'
    || '\U{2000}' <= c <= '\U{200A}' || c == '\U{2028}' || c == '\U{2029}' || c == '\U{202F}'
    || c == '\U{205F}' || c == '\U{3000}'
  }

  function TrimLeft(s: string): (t: string)
    ensures t == "" || !IsSpace(t[0])
  {
    if s != "" && IsSpace(s[0]) then TrimLeft(s[1..]) else s
  }

  function TrimRight(s: string): (t: string)
    ensures t <= s
    ensures t == "" || !IsSpace(t[|t| - 1])
  {
    if s != "" && IsSpace(s[|s| - 1]) then TrimRight(s[..|s| - 1]) else s
  }

  function TrimSpace(s: string): string {
    TrimRight(TrimLeft(s))
  }

  // Only white space.
  predicate IsBlank(s: string) {
    forall k :: 0 <= k < |s| ==> IsSpace(s[k])
  }

  lemma {:induction false} TrimLeftIs(s: string)
    ensures |TrimLeft(s)| <= |s| && s[|s| - |TrimLeft(s)|..] == TrimLeft(s)
    ensures IsBlank(s[..|s| - |TrimLeft(s)|])
  {
    if s != "" && IsSpace(s[0]) {
      var n := |s| - |TrimLeft(s)|;
      TrimLeftIs(s[1..]);
      assert s[..n] == [s[0]] + s[1..][..n - 1];
    }
  }

  lemma {:induction false} TrimRightIs(s: string)
    ensures IsBlank(s[|TrimRight(s)|..])
  {
    if s != "" && IsSpace(s[|s| - 1]) {
      var front, n := s[..|s| - 1], |TrimRight(s)|;
      TrimRightIs(front);
      assert s[n..] == front[n..] + [s[|s| - 1]];
    }
  }

  /** Only white space is trimmed, all of it at both ends. */
  lemma TrimSpaceIs(s: string) returns (before: string, after: string)
    ensures s == before + TrimSpace(s) + after && IsBlank(before) && IsBlank(after)
    ensures TrimSpace(s) == "" || IsTrimmed(TrimSpace(s))
  {
    var t := TrimLeft(s);
    TrimLeftIs(s);
    TrimRightIs(t);
    before, after := s[..|s| - |t|], t[|TrimSpace(s)|..];
    TrimSpaceIdempotent(s);
  }

  lemma TrimSpaceIdempotent(s: string)
    ensures TrimSpace(TrimSpace(s)) == TrimSpace(s)
  {
    var t := TrimSpace(s);
    assert t == "" || t[0] == TrimLeft(s)[0];
  }

  /** Length of the longest prefix of `s` without white space. */
  function WordLength(s: string): (n: nat)
    ensures n <= |s|
    ensures forall k :: 0 <= k < n ==> !IsSpace(s[k])
    ensures n < |s| ==> IsSpace(s[n])
  {
    if s == "" || IsSpace(s[0]) then 0 else 1 + WordLength(s[1..])
  }

  /** The maximal runs of non-space characters of `s`, in order. */
  function Fields(s: string): seq<string>
    decreases |s|
  {
    if s == "" then []
    else if IsSpace(s[0]) then Fields(s[1..])
    else [s[..WordLength(s)]] + Fields(s[WordLength(s)..])
  }

  predicate IsWord(w: string) {
    w != "" && forall k :: 0 <= k < |w| ==> !IsSpace(w[k])
  }

  lemma {:induction false} FieldsOfJoin(words: seq<string>)
    requires |words| > 0
    requires forall k :: 0 <= k < |words| ==> IsWord(words[k])
    ensures Fields(Join(words, ' ')) == words
  {
    var w := words[0];
    var s := Join(words, ' ');
    assert s[..|w|] == w;
    assert forall k :: 0 <= k < |w| ==> s[k] == w[k];
    assert |w| < |s| ==> s[|w|] == ' ';
    assert WordLength(s) == |w|;
    if |words| > 1 {
      FieldsOfJoin(words[1..]);
      assert s[|w|..] == [' '] + Join(words[1..], ' ');
      assert s[|w|..][1..] == Join(words[1..], ' ');
      assert words == [w] + words[1..];
    } else {
      assert s[|w|..] == "";
    }
  }

  // Without white space at either end.
  predicate IsTrimmed(s: string) {
    s != "" && !IsSpace(s[0]) && !IsSpace(s[|s| - 1])
  }

  /** A joined list of trimmed texts is trimmed. */
  lemma {:induction false} JoinIsTrimmed(parts: seq<string>, sep: char)
    requires |parts| > 0
    requires forall k :: 0 <= k < |parts| ==> IsTrimmed(parts[k])
    ensures IsTrimmed(Join(parts, sep)) && TrimSpace(Join(parts, sep)) == Join(parts, sep)
  {
    assert IsTrimmed(parts[0]);
    if |parts| > 1 {
      JoinIsTrimmed(parts[1..], sep);
    }
  }

  predicate IsDigit(c: char) {
    '0' <= c <= '9'
  }

  function DigitValue(c: char): nat
    requires IsDigit(c)
  {
    c as int - '0' as int
  }

  /** Value of a string of decimal digits, most significant first. */
  function Decimal(s: string): nat
    requires forall k :: 0 <= k < |s| ==> IsDigit(s[k])
  {
    if s == "" then 0 else 10 * Decimal(s[..|s| - 1]) + DigitValue(s[|s| - 1])
  }

  /** strconv.Atoi: an optional sign, at least one digit, and a value that fits in an `int`. */
  function Atoi(s: string): (n: Option<int>)
    ensures n.Some? ==> -MAX_INT - 1 <= n.value <= MAX_INT
  {
    var negative := s != "" && s[0] == '-';
    var digits := if s != "" && (s[0] == '-' || s[0] == '+') then s[1..] else s;
    if digits == "" || exists k :: 0 <= k < |digits| && !IsDigit(digits[k]) then None
    else
      var v: int := if negative then 0 - Decimal(digits) else Decimal(digits);
      if -MAX_INT - 1 <= v <= MAX_INT then Some(v) else None
  }

  /** The shortest decimal form of `n`. */
  function Show(n: nat): (s: string)
    ensures s != ""
    ensures forall k :: 0 <= k < |s| ==> IsDigit(s[k])
    ensures Decimal(s) == n
  {
    var d := ('0' as int + n % 10) as char;
    if n < 10 then [d]
    else
      var high := Show(n / 10);
      assert (high + [d])[..|high|] == high;
      high + [d]
  }

  lemma AtoiOfShow(n: nat)
    requires n <= MAX_INT
    ensures Atoi(Show(n)) == Some(n)
  {
    var s := Show(n);
    assert IsDigit(s[0]);
  }

  /** A number with a sign is read as it is meant, over the whole range of an `int`. */
  lemma AtoiOfSigned(n: nat)
    ensures Atoi("-" + Show(n)) == if n <= MAX_INT + 1 then Some(0 - n) else None
    ensures Atoi("+" + Show(n)) == if n <= MAX_INT then Some(n) else None
    ensures Atoi("").None? && Atoi("-").None? && Atoi("+").None?
  {
    assert ("-" + Show(n))[1..] == Show(n) && ("+" + Show(n))[1..] == Show(n);
  }

  /** Byte-wise string order, the order of Go's `<` and of sort.Strings. */
  predicate Less(a: string, b: string) {
    b != "" && (a == "" || a[0] < b[0] || (a[0] == b[0] && Less(a[1..], b[1..])))
  }

  predicate LessEq(a: string, b: string) {
    a == b || Less(a, b)
  }

  lemma {:induction false} LessTransitive(a: string, b: string, c: string)
    requires Less(a, b) && Less(b, c)
    ensures Less(a, c)
  {
    if a != "" && a[0] == b[0] && b[0] == c[0] {
      LessTransitive(a[1..], b[1..], c[1..]);
    }
  }

  lemma {:induction false} LessIrreflexive(a: string)
    ensures !Less(a, a)
  {
    if a != "" {
      LessIrreflexive(a[1..]);
    }
  }

  lemma {:induction false} LessTotal(a: string, b: string)
    ensures Less(a, b) || Less(b, a) || a == b
  {
    if a != "" && b != "" && a[0] == b[0] {
      LessTotal(a[1..], b[1..]);
      assert a == [a[0]] + a[1..] && b == [b[0]] + b[1..];
    }
  }

  /** Equal prefixes do not affect the order. */
  lemma {:induction false} LessSamePrefix(p: string, a: string, b: string)
    ensures Less(p + a, p + b) <==> Less(a, b)
  {
    if p == "" {
      assert p + a == a && p + b == b;
    } else {
      assert (p + a)[1..] == p[1..] + a && (p + b)[1..] == p[1..] + b;
      LessSamePrefix(p[1..], a, b);
    }
  }
}
