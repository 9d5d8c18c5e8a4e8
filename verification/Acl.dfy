/**
 * Translation of NFSv4 access control entries between the nfs4-acl-tools form ("A:fd:alice:rwx") and the
 * FreeBSD setfacl form ("user:alice:rwx:fd:allow"), from internal/zfs/acl.go.
 */
module Acl {
  import opened Text

  datatype Entry = Entry(tag: string, flags: string, qualifier: string, perms: string)

  datatype Error = UnsupportedType | UnsupportedPerm(c: char) | NoPermissions | UnsupportedFlag(c: char) | NoPrincipal

  datatype Result<+T> = Ok(value: T) | Err(error: Error)

  /**
   * The package's translation tables: permission letters of the two forms position by position, the inheritance
   * flags (the same letters in both forms), ACE types and special principals as pairs of names.
   */
  datatype Tables = Tables(nfs4: string, bsd: string, flags: string,
                           types: seq<(string, string)>, special: seq<(string, string)>)

  // 'g' is no inheritance flag: it marks a group principal, in the nfs4 form only.
  const FREEBSD := Tables("rwxaDdtTnNcCoy", "rwxpDdaARWcCos", "fdinSFI",
                          [("A", "allow"), ("D", "deny"), ("U", "audit"), ("L", "alarm")],
                          [("OWNER@", "owner@"), ("GROUP@", "group@"), ("EVERYONE@", "everyone@")])

  /** The name a table gives to `key`. */
  function Lookup(pairs: seq<(string, string)>, key: string): (r: Option<string>)
    ensures r.Some? ==> (key, r.value) in pairs
    ensures r.None? ==> forall i :: 0 <= i < |pairs| ==> pairs[i].0 != key
  {
    if pairs == [] then None
    else if pairs[0].0 == key then Some(pairs[0].1)
    else Lookup(pairs[1..], key)
  }

  /** The key whose name is `name`; the last one if there are several. */
  function KeyOf(pairs: seq<(string, string)>, name: string): (r: Option<string>)
    ensures r.Some? ==> (r.value, name) in pairs
    ensures r.None? ==> forall i :: 0 <= i < |pairs| ==> pairs[i].1 != name
  {
    if pairs == [] then None
    else if pairs[|pairs| - 1].1 == name then Some(pairs[|pairs| - 1].0)
    else KeyOf(pairs[..|pairs| - 1], name)
  }

  ghost predicate Distinct(s: string) {
    forall i, j :: 0 <= i < j < |s| ==> s[i] != s[j]
  }

  ghost predicate OneToOne(pairs: seq<(string, string)>) {
    forall i, j :: 0 <= i < |pairs| && 0 <= j < |pairs| && (pairs[i].0 == pairs[j].0 || pairs[i].1 == pairs[j].1) ==>
      i == j
  }

  /** What the proofs need of the tables; FreeBSDTables shows that the program's tables have it. */
  ghost predicate Sound(t: Tables) {
    && |t.nfs4| == |t.bsd| && Distinct(t.nfs4) && Distinct(t.bsd) && Distinct(t.flags)
    && ':' !in t.bsd && ':' !in t.flags && 'g' !in t.flags
    && OneToOne(t.types) && OneToOne(t.special)
    && (forall k :: 0 <= k < |t.types| ==> t.types[k].0 != "" && ':' !in t.types[k].1)
    && (forall k :: 0 <= k < |t.special| ==> SpecialShape(t.special[k]))
  }

  ghost predicate SpecialShape(p: (string, string)) {
    ':' !in p.1 && p.1 != "" && p.1[|p.1| - 1] == '@' && ToUpper(p.1) == p.0 && ToUpper(p.0) == p.0
  }

  lemma Nfs4Letters()
    ensures Distinct(FREEBSD.nfs4)
  {
  }

  lemma BsdLetters()
    ensures Distinct(FREEBSD.bsd)
  {
  }

  lemma FreeBSDLetters()
    ensures |FREEBSD.nfs4| == |FREEBSD.bsd| && Distinct(FREEBSD.flags)
    ensures ':' !in FREEBSD.bsd && ':' !in FREEBSD.flags && 'g' !in FREEBSD.flags
  {
  }

  lemma SpecialPair(upper: string, lower: string)
    requires (upper, lower) in FREEBSD.special
    ensures ':' !in lower && lower != "" && lower[|lower| - 1] == '@'
    ensures ToUpper(lower) == upper && ToUpper(upper) == upper
  {
    assert lower == "owner@" || lower == "group@" || lower == "everyone@";
    if lower == "owner@" {
      assert upper == "OWNER@";
    } else if lower == "group@" {
      assert upper == "GROUP@";
    } else {
      assert upper == "EVERYONE@";
    }
  }

  lemma TypesOneToOne()
    ensures OneToOne(FREEBSD.types)
    ensures forall k :: 0 <= k < |FREEBSD.types| ==> FREEBSD.types[k].0 != "" && ':' !in FREEBSD.types[k].1
  {
    assert "allow"[2] == 'l' && "alarm"[2] == 'a' && "audit"[2] == 'd' && |"deny"| == 4 && |"allow"| == 5;
    assert "A"[0] == 'A' && "D"[0] == 'D' && "U"[0] == 'U' && "L"[0] == 'L';
  }

  lemma SpecialsOneToOne()
    ensures OneToOne(FREEBSD.special)
  {
    assert |"OWNER@"| == 6 && |"GROUP@"| == 6 && |"EVERYONE@"| == 9 && "OWNER@"[0] == 'O' && "GROUP@"[0] == 'G';
    assert |"owner@"| == 6 && |"group@"| == 6 && |"everyone@"| == 9 && "owner@"[0] == 'o' && "group@"[0] == 'g';
  }

  lemma FreeBSDTables()
    ensures Sound(FREEBSD)
  {
    Nfs4Letters();
    BsdLetters();
    FreeBSDLetters();
    TypesOneToOne();
    SpecialsOneToOne();
    forall k | 0 <= k < |FREEBSD.special| ensures SpecialShape(FREEBSD.special[k]) {
      SpecialPair(FREEBSD.special[k].0, FREEBSD.special[k].1);
    }
  }

  predicate IsSpecial(t: Tables, qualifier: string) {
    Lookup(t.special, qualifier).Some?
  }

  /** The letters to[k] for which from[k] occurs in s, in table order. */
  function Select(from: string, to: string, s: string): string
    requires |from| == |to|
  {
    if from == "" then "" else (if from[0] in s then [to[0]] else "") + Select(from[1..], to[1..], s)
  }

  function OrderedFlags(t: Tables, flags: string): string {
    Select(t.flags, t.flags, flags) + if 'g' in flags then "g" else ""
  }

  predicate KnownFlag(t: Tables, c: char) {
    c == 'g' || c in t.flags
  }

  function WithoutG(flags: string): string {
    if flags == "" then "" else (if flags[0] == 'g' then "" else [flags[0]]) + WithoutG(flags[1..])
  }

  function BsdPerms(t: Tables, perms: string): (b: string)
    requires |t.nfs4| == |t.bsd|
    requires forall k :: 0 <= k < |perms| ==> perms[k] in t.nfs4
    ensures |b| == |perms|
    ensures forall k :: 0 <= k < |perms| ==> b[k] == t.bsd[IndexByte(t.nfs4, perms[k])]
  {
    seq(|perms|, k requires 0 <= k < |perms| => t.bsd[IndexByte(t.nfs4, perms[k])])
  }

  /** Position of the first letter of `perms` that has no translation, or |perms|. */
  function FirstBadPerm(t: Tables, perms: string): (n: nat)
    ensures n <= |perms|
    ensures forall k :: 0 <= k < n ==> perms[k] in t.nfs4
    ensures n < |perms| ==> perms[n] !in t.nfs4
  {
    if perms == "" || perms[0] !in t.nfs4 then 0 else 1 + FirstBadPerm(t, perms[1..])
  }

  /** Position of the first unknown flag, or |flags|. */
  function FirstBadFlag(t: Tables, flags: string): (n: nat)
    ensures n <= |flags|
    ensures forall k :: 0 <= k < n ==> KnownFlag(t, flags[k])
    ensures n < |flags| ==> !KnownFlag(t, flags[n])
  {
    if flags == "" || !KnownFlag(t, flags[0]) then 0 else 1 + FirstBadFlag(t, flags[1..])
  }

  /** The user or group name of a principal, without its domain. */
  function NameOf(qualifier: string): (name: string)
    ensures '@' !in name
    ensures name <= qualifier && (name == qualifier || qualifier[|name|] == '@')
  {
    var at := IndexByte(qualifier, '@');
    if at < 0 then qualifier else qualifier[..at]
  }

  /** The leading fields of a printed entry: a special name, or a kind and a name. */
  function Principal(t: Tables, e: Entry): (p: seq<string>)
    ensures |p| == 1 || |p| == 2
  {
    var special := Lookup(t.special, ToUpper(e.qualifier));
    if special.Some? then [special.value]
    else [if 'g' in e.flags then "group" else "user", NameOf(e.qualifier)]
  }

  function AceSpec(t: Tables, e: Entry): Result<string>
    requires |t.nfs4| == |t.bsd|
  {
    var badPerm := FirstBadPerm(t, e.perms);
    var badFlag := FirstBadFlag(t, e.flags);
    var typ := Lookup(t.types, e.tag);
    if typ.None? then Err(UnsupportedType)
    else if badPerm < |e.perms| then Err(UnsupportedPerm(e.perms[badPerm]))
    else if e.perms == "" then Err(NoPermissions)
    else if badFlag < |e.flags| then Err(UnsupportedFlag(e.flags[badFlag]))
    else if !IsSpecial(t, ToUpper(e.qualifier)) && NameOf(e.qualifier) == "" then Err(NoPrincipal)
    else Ok(Join(Principal(t, e) + [BsdPerms(t, e.perms), WithoutG(e.flags), typ.value], ':'))
  }

  /** Fields of a FreeBSD line after its principal has been read. */
  function BsdEntry(t: Tables, qualifier: string, marker: string, f: seq<string>): Option<Entry>
    requires |t.nfs4| == |t.bsd| && |f| == 3
  {
    var tag := KeyOf(t.types, f[2]);
    if tag.None? || tag.value == "" then None
    else Some(Entry(tag.value, OrderedFlags(t, marker + f[1]), qualifier, Select(t.bsd, t.nfs4, f[0])))
  }

  function ParseBsd(t: Tables, line: string): Option<Entry>
    requires |t.nfs4| == |t.bsd|
  {
    ParseFields(t, Split(line, ':'))
  }

  function ParseFields(t: Tables, f: seq<string>): Option<Entry>
    requires |t.nfs4| == |t.bsd|
  {
    if |f| == 4 && f[0] != "" && f[0][|f[0]| - 1] == '@' then BsdEntry(t, ToUpper(f[0]), "", f[1..])
    else if |f| == 5 && (f[0] == "user" || f[0] == "group") then
      BsdEntry(t, f[1], if f[0] == "group" then "g" else "", f[2..])
    else None
  }

  /** parseNFSv4ACLLine: everything after the third colon is the permission field. */
  function ParseNfs4(line: string): (e: Option<Entry>)
    ensures e.Some? ==> ':' !in e.value.tag && ':' !in e.value.flags && ':' !in e.value.qualifier
  {
    var i := IndexByte(line, ':');
    if i < 0 then None
    else
      var rest := line[i + 1..];
      var j := IndexByte(rest, ':');
      if j < 0 then None
      else
        var last := rest[j + 1..];
        var k := IndexByte(last, ':');
        if k < 0 then None else Some(Entry(line[..i], rest[..j], last[..k], last[k + 1..]))
  }

  function Colons(s: string): nat {
    multiset(s)[':']
  }

  lemma ColonsAfter(s: string, i: int)
    requires i == IndexByte(s, ':')
    ensures Colons(s) == if i < 0 then 0 else 1 + Colons(s[i + 1..])
  {
    if i >= 0 {
      CutAt(s, i);
      assert multiset(s) == multiset(s[..i]) + (multiset{':'} + multiset(s[i + 1..]));
    }
  }

  lemma CutAt(s: string, i: nat)
    requires i < |s| && s[i] == ':'
    ensures s == s[..i] + ([':'] + s[i + 1..])
  {
  }

  lemma Rejoin(a: string, b: string, c: string, d: string)
    ensures a + [':'] + b + [':'] + c + [':'] + d == a + ([':'] + (b + ([':'] + (c + ([':'] + d)))))
  {
  }

  lemma Nfs4Accepted(line: string)
    ensures ParseNfs4(line).Some? <==> Colons(line) >= 3
  {
    var i := IndexByte(line, ':');
    ColonsAfter(line, i);
    if i >= 0 {
      var rest := line[i + 1..];
      var j := IndexByte(rest, ':');
      ColonsAfter(rest, j);
      if j >= 0 {
        var last := rest[j + 1..];
        ColonsAfter(last, IndexByte(last, ':'));
      }
    }
  }

  /** A line is accepted exactly if it has three colons or more, and then its four fields joined again are the line. */
  lemma Nfs4Fields(line: string)
    ensures ParseNfs4(line).Some? <==> Colons(line) >= 3
    ensures ParseNfs4(line).Some? ==>
      var e := ParseNfs4(line).value; e.tag + [':'] + e.flags + [':'] + e.qualifier + [':'] + e.perms == line
  {
    Nfs4Accepted(line);
    if ParseNfs4(line).Some? {
      var e := ParseNfs4(line).value;
      var i := IndexByte(line, ':');
      var j := IndexByte(line[i + 1..], ':');
      var k := IndexByte(line[i + 1..][j + 1..], ':');
      assert e == Entry(line[..i], line[i + 1..][..j], line[i + 1..][j + 1..][..k], line[i + 1..][j + 1..][k + 1..]);
      Cuts(line, i, j, k);
    }
  }

  lemma Cuts(line: string, i: nat, j: nat, k: nat)
    requires i < |line| && line[i] == ':' && j < |line[i + 1..]| && line[i + 1..][j] == ':'
    requires k < |line[i + 1..][j + 1..]| && line[i + 1..][j + 1..][k] == ':'
    ensures line[..i] + [':'] +
      line[i + 1..][..j] + [':'] + line[i + 1..][j + 1..][..k] + [':'] + line[i + 1..][j + 1..][k + 1..]
      == line
  {
    CutAt(line, i);
    CutAt(line[i + 1..], j);
    CutAt(line[i + 1..][j + 1..], k);
    Rejoin(line[..i], line[i + 1..][..j], line[i + 1..][j + 1..][..k], line[i + 1..][j + 1..][k + 1..]);
  }

  // ---- The loops of the source ----

  method OrderFlags(t: Tables, flags: string) returns (r: string)
    ensures r == OrderedFlags(t, flags)
  {
    r := "";
    for i := 0 to |t.flags|
      invariant r + Select(t.flags[i..], t.flags[i..], flags) == Select(t.flags, t.flags, flags)
    {
      assert t.flags[i..][1..] == t.flags[i + 1..];
      if IndexByte(flags, t.flags[i]) >= 0 {
        r := r + [t.flags[i]];
      }
    }
    if IndexByte(flags, 'g') >= 0 {
      r := r + "g";
    }
  }

  method TypeTag(t: Tables, name: string) returns (tag: string)
    ensures tag == match KeyOf(t.types, name) case Some(k) => k case None => ""
  {
    tag := "";
    for i := 0 to |t.types|
      invariant tag == match KeyOf(t.types[..i], name) case Some(k) => k case None => ""
    {
      assert t.types[..i + 1][..i] == t.types[..i];
      if t.types[i].1 == name {
        tag := t.types[i].0;
      }
    }
    assert t.types[..|t.types|] == t.types;
  }

  method SelectPerms(t: Tables, bits: string) returns (perms: string)
    requires |t.nfs4| == |t.bsd|
    ensures perms == Select(t.bsd, t.nfs4, bits)
  {
    perms := "";
    for i := 0 to |t.bsd|
      invariant perms + Select(t.bsd[i..], t.nfs4[i..], bits) == Select(t.bsd, t.nfs4, bits)
    {
      assert t.bsd[i..][1..] == t.bsd[i + 1..] && t.nfs4[i..][1..] == t.nfs4[i + 1..];
      if IndexByte(bits, t.bsd[i]) >= 0 {
        perms := perms + [t.nfs4[i]];
      }
    }
  }

  method ParseFreeBSDLine(t: Tables, line: string) returns (r: Option<Entry>)
    requires |t.nfs4| == |t.bsd|
    ensures r == ParseBsd(t, line)
  {
    var f := Split(line, ':');
    var qualifier, marker := "", "";
    if |f| == 4 && f[0] != "" && f[0][|f[0]| - 1] == '@' {
      qualifier := ToUpper(f[0]);
      f := f[1..];
    } else if |f| == 5 && (f[0] == "user" || f[0] == "group") {
      qualifier := f[1];
      if f[0] == "group" {
        marker := "g";
      }
      f := f[2..];
    } else {
      return None;
    }
    var tag := TypeTag(t, f[2]);
    if tag == "" {
      return None;
    }
    var perms := SelectPerms(t, f[0]);
    var ordered := OrderFlags(t, marker + f[1]);
    return Some(Entry(tag, ordered, qualifier, perms));
  }

  /** The permission loop: all letters translated, or the first one that has no translation. */
  method TranslatePerms(t: Tables, perms: string) returns (r: Result<string>)
    requires |t.nfs4| == |t.bsd|
    ensures var bad := FirstBadPerm(t, perms);
            r == if bad < |perms| then Err(UnsupportedPerm(perms[bad])) else Ok(BsdPerms(t, perms))
  {
    var out := "";
    for i := 0 to |perms|
      invariant forall k :: 0 <= k < i ==> perms[k] in t.nfs4
      invariant out == BsdPerms(t, perms[..i])
    {
      var found := IndexByte(t.nfs4, perms[i]);
      if found < 0 {
        return Err(UnsupportedPerm(perms[i]));
      }
      out := out + [t.bsd[found]];
    }
    assert perms[..|perms|] == perms;
    return Ok(out);
  }

  /** The flag loop: every flag but the group marker, or the first unknown one. */
  method TranslateFlags(t: Tables, given: string) returns (r: Result<string>)
    ensures var bad := FirstBadFlag(t, given);
            r == if bad < |given| then Err(UnsupportedFlag(given[bad])) else Ok(WithoutG(given))
  {
    var flags := "";
    for i := 0 to |given|
      invariant forall k :: 0 <= k < i ==> KnownFlag(t, given[k])
      invariant flags + WithoutG(given[i..]) == WithoutG(given)
    {
      var c := given[i];
      WithoutGFrom(given, i);
      if c == 'g' {
      } else if IndexByte(t.flags, c) >= 0 {
        flags := flags + [c];
      } else {
        return Err(UnsupportedFlag(c));
      }
    }
    assert given[|given|..] == "" && flags + "" == flags;
    return Ok(flags);
  }

  lemma WithoutGFrom(s: string, i: nat)
    requires i < |s|
    ensures WithoutG(s[i..]) == (if s[i] == 'g' then "" else [s[i]]) + WithoutG(s[i + 1..])
  {
    assert s[i..][1..] == s[i + 1..];
  }

  method FreeBSDACESpec(t: Tables, e: Entry) returns (r: Result<string>)
    requires |t.nfs4| == |t.bsd|
    ensures r == AceSpec(t, e)
  {
    var typ := Lookup(t.types, e.tag);
    if typ.None? {
      return Err(UnsupportedType);
    }
    var perms := TranslatePerms(t, e.perms);
    if perms.Err? {
      return perms;
    }
    if perms.value == "" {
      return Err(NoPermissions);
    }
    var flags := TranslateFlags(t, e.flags);
    if flags.Err? {
      return flags;
    }
    var special := Lookup(t.special, ToUpper(e.qualifier));
    var tag := "";
    if special.Some? {
      tag := special.value;
    } else {
      var name := NameOf(e.qualifier);
      if name == "" {
        return Err(NoPrincipal);
      }
      tag := "user" + ":" + name;
      if IndexByte(e.flags, 'g') >= 0 {
        tag := "group" + ":" + name;
      }
    }
    var rest := [perms.value, flags.value, typ.value];
    JoinThree(perms.value, flags.value, typ.value);
    JoinAppend(Principal(t, e), rest);
    assert tag == Join(Principal(t, e), ':');
    return Ok(tag + ":" + (perms.value + ":" + flags.value + ":" + typ.value));
  }

  lemma JoinThree(a: string, b: string, c: string)
    ensures Join([a, b, c], ':') == a + ":" + b + ":" + c
  {
    assert [a, b, c][1..] == [b, c] && [b, c][1..] == [c];
    assert Join([c], ':') == c;
    assert Join([b, c], ':') == b + ":" + c;
    assert Join([a, b, c], ':') == a + ":" + (b + ":" + c);
  }

  lemma {:induction false} JoinAppend(a: seq<string>, b: seq<string>)
    requires a != [] && b != []
    ensures Join(a + b, ':') == Join(a, ':') + ":" + Join(b, ':')
  {
    if |a| == 1 {
      assert (a + b)[1..] == b;
    } else {
      JoinAppend(a[1..], b);
      assert (a + b)[1..] == a[1..] + b;
    }
  }

  // ---- Canonical letter strings ----

  /** The letters of `s` stand in the order of `alphabet`, each at most once. */
  ghost predicate Ordered(alphabet: string, s: string) {
    && (forall i :: 0 <= i < |s| ==> s[i] in alphabet)
    && forall i, j :: 0 <= i < j < |s| ==> IndexByte(alphabet, s[i]) < IndexByte(alphabet, s[j])
  }

  lemma {:induction false} SelectMembers(from: string, to: string, s: string)
    requires |from| == |to|
    ensures forall c :: c in Select(from, to, s) <==> exists k :: 0 <= k < |from| && to[k] == c && from[k] in s
  {
    if from != "" {
      SelectMembers(from[1..], to[1..], s);
      forall c
        ensures c in Select(from, to, s) <==> exists k :: 0 <= k < |from| && to[k] == c && from[k] in s
      {
        if k :| 0 <= k < |from| && to[k] == c && from[k] in s && k > 0 {
          assert to[1..][k - 1] == c && from[1..][k - 1] in s;
        }
        if k :| 0 <= k < |from| - 1 && to[1..][k] == c && from[1..][k] in s {
          assert to[k + 1] == c && from[k + 1] in s;
        }
      }
    }
  }

  lemma {:induction false} SelectOrdered(from: string, to: string, s: string)
    requires |from| == |to| && Distinct(to)
    ensures Ordered(to, Select(from, to, s))
  {
    if from != "" {
      SelectOrdered(from[1..], to[1..], s);
      var rest := Select(from[1..], to[1..], s);
      assert forall c :: c in to[1..] ==> c != to[0] && IndexByte(to, c) == 1 + IndexByte(to[1..], c);
    }
  }

  /** A selection depends only on which letters of the source alphabet occur. */
  lemma {:induction false} SelectSame(from: string, from': string, to: string, s: string, s': string)
    requires |from| == |from'| == |to|
    requires forall k :: 0 <= k < |from| ==> (from[k] in s <==> from'[k] in s')
    ensures Select(from, to, s) == Select(from', to, s')
  {
    if from != "" {
      SelectSame(from[1..], from'[1..], to[1..], s, s');
    }
  }

  lemma IndexInDistinct(s: string, k: nat)
    requires Distinct(s) && k < |s|
    ensures IndexByte(s, s[k]) == k
  {
    assert forall n :: k < n <= |s| ==> s[k] == s[..n][k];
  }

  /** Printing permissions keeps the set of permissions named, position by position in the two tables. */
  lemma BsdPermsMembers(t: Tables, perms: string, k: nat)
    requires Sound(t) && k < |t.nfs4|
    requires forall i :: 0 <= i < |perms| ==> perms[i] in t.nfs4
    ensures t.bsd[k] in BsdPerms(t, perms) <==> t.nfs4[k] in perms
  {
    var b := BsdPerms(t, perms);
    if i :| 0 <= i < |perms| && perms[i] == t.nfs4[k] {
      IndexInDistinct(t.nfs4, k);
      assert b[i] == t.bsd[k];
    }
    if i :| 0 <= i < |b| && b[i] == t.bsd[k] {
      var n := IndexByte(t.nfs4, perms[i]);
      assert n == k;
    }
  }

  lemma {:induction false} WithoutGMembers(flags: string)
    ensures forall c :: c in WithoutG(flags) <==> c in flags && c != 'g'
  {
    if flags != "" {
      WithoutGMembers(flags[1..]);
    }
  }

  lemma {:induction false} WithoutGIdentity(flags: string)
    requires 'g' !in flags
    ensures WithoutG(flags) == flags
  {
    if flags != "" {
      WithoutGIdentity(flags[1..]);
    }
  }

  lemma OrderedFlagsMembers(t: Tables, flags: string)
    requires Sound(t)
    ensures forall c :: c in OrderedFlags(t, flags) <==> c in flags && KnownFlag(t, c)
    ensures Ordered(t.flags + "g", OrderedFlags(t, flags))
  {
    SelectMembers(t.flags, t.flags, flags);
    SelectOrdered(t.flags, t.flags, flags);
    var all := t.flags + "g";
    forall c | c in t.flags ensures IndexByte(all, c) == IndexByte(t.flags, c) {
      var i := IndexByte(t.flags, c);
      assert all == t.flags[..i] + [c] + (t.flags[i + 1..] + "g");
      IndexOfFirst(t.flags[..i], c, t.flags[i + 1..] + "g");
    }
    IndexOfFirst(t.flags, 'g', "");
    assert t.flags + ['g'] + "" == all;
  }

  // ---- Round trips ----

  /** The entry that printing and parsing back makes of `e`. */
  function Normal(t: Tables, e: Entry): Entry {
    var special := IsSpecial(t, ToUpper(e.qualifier));
    Entry(e.tag,
          OrderedFlags(t, if special then WithoutG(e.flags) else e.flags),
          if special then ToUpper(e.qualifier) else NameOf(e.qualifier),
          Select(t.nfs4, t.nfs4, e.perms))
  }

  lemma PrintedFields(t: Tables, e: Entry)
    requires Sound(t) && AceSpec(t, e).Ok? && ':' !in e.qualifier
    ensures Split(AceSpec(t, e).value, ':') ==
      Principal(t, e) + [BsdPerms(t, e.perms), WithoutG(e.flags), Lookup(t.types, e.tag).value]
  {
    var rest := [BsdPerms(t, e.perms), WithoutG(e.flags), Lookup(t.types, e.tag).value];
    WithoutGMembers(e.flags);
    var p := Principal(t, e);
    assert forall k :: 0 <= k < |p| ==> ':' !in p[k];
    assert ':' !in rest[0] && ':' !in rest[1] && ':' !in rest[2];
    SplitOfJoin(p + rest, ':');
  }

  lemma PermsNormal(t: Tables, perms: string)
    requires Sound(t)
    requires forall i :: 0 <= i < |perms| ==> perms[i] in t.nfs4
    ensures Select(t.bsd, t.nfs4, BsdPerms(t, perms)) == Select(t.nfs4, t.nfs4, perms)
  {
    forall k | 0 <= k < |t.nfs4| ensures t.bsd[k] in BsdPerms(t, perms) <==> t.nfs4[k] in perms {
      BsdPermsMembers(t, perms, k);
    }
    SelectSame(t.bsd, t.nfs4, t.nfs4, BsdPerms(t, perms), perms);
  }

  lemma FlagsNormal(t: Tables, flags: string)
    requires Sound(t)
    ensures 'g' in flags ==> OrderedFlags(t, "g" + WithoutG(flags)) == OrderedFlags(t, flags)
    ensures 'g' !in flags ==> WithoutG(flags) == flags
  {
    WithoutGMembers(flags);
    if 'g' in flags {
      var w := "g" + WithoutG(flags);
      assert forall k :: 0 <= k < |t.flags| ==> (t.flags[k] in w <==> t.flags[k] in flags);
      SelectSame(t.flags, t.flags, t.flags, w, flags);
      assert w[0] == 'g';
    } else {
      WithoutGIdentity(flags);
    }
  }

  lemma TypeNames(t: Tables, tag: string)
    requires Sound(t) && Lookup(t.types, tag).Some?
    ensures KeyOf(t.types, Lookup(t.types, tag).value) == Some(tag)
  {
    var name := Lookup(t.types, tag).value;
    var i :| 0 <= i < |t.types| && t.types[i] == (tag, name);
    var back := KeyOf(t.types, name);
    assert (back.value, name) in t.types;
  }

  /** The three fields after the principal are read back to the printed type, permissions and flags. */
  lemma FieldsReadBack(t: Tables, e: Entry, qualifier: string, marker: string)
    requires Sound(t) && AceSpec(t, e).Ok?
    ensures BsdEntry(t, qualifier, marker, [BsdPerms(t, e.perms), WithoutG(e.flags), Lookup(t.types, e.tag).value]) ==
            Some(Entry(e.tag, OrderedFlags(t, marker + WithoutG(e.flags)), qualifier, Select(t.nfs4, t.nfs4, e.perms)))
  {
    PermsNormal(t, e.perms);
    TypeNames(t, e.tag);
  }

  lemma SpecialFields(t: Tables, name: string, rest: seq<string>)
    requires |t.nfs4| == |t.bsd| && |rest| == 3 && name != "" && name[|name| - 1] == '@'
    ensures ParseFields(t, [name] + rest) == BsdEntry(t, ToUpper(name), "", rest)
  {
    assert ([name] + rest)[1..] == rest;
  }

  lemma NamedFields(t: Tables, kind: string, name: string, rest: seq<string>)
    requires |t.nfs4| == |t.bsd| && |rest| == 3 && (kind == "user" || kind == "group")
    ensures ParseFields(t, [kind, name] + rest) == BsdEntry(t, name, if kind == "group" then "g" else "", rest)
  {
    assert ([kind, name] + rest)[2..] == rest;
  }

  /** Parsing a printed entry gives its normal form, for every accepted entry without a colon in its principal. */
  lemma ParseOfSpec(t: Tables, e: Entry)
    requires Sound(t) && AceSpec(t, e).Ok? && ':' !in e.qualifier
    ensures ParseBsd(t, AceSpec(t, e).value) == Some(Normal(t, e))
  {
    PrintedFields(t, e);
    var rest := [BsdPerms(t, e.perms), WithoutG(e.flags), Lookup(t.types, e.tag).value];
    if IsSpecial(t, ToUpper(e.qualifier)) {
      SpecialReadBack(t, ToUpper(e.qualifier));
      SpecialFields(t, Lookup(t.special, ToUpper(e.qualifier)).value, rest);
      FieldsReadBack(t, e, ToUpper(e.qualifier), "");
      assert "" + WithoutG(e.flags) == WithoutG(e.flags);
    } else {
      var marker := if 'g' in e.flags then "g" else "";
      NamedFields(t, if 'g' in e.flags then "group" else "user", NameOf(e.qualifier), rest);
      FieldsReadBack(t, e, NameOf(e.qualifier), marker);
      MarkedFlags(t, e.flags);
    }
  }

  lemma MarkedFlags(t: Tables, flags: string)
    requires Sound(t)
    ensures OrderedFlags(t, (if 'g' in flags then "g" else "") + WithoutG(flags)) == OrderedFlags(t, flags)
  {
    FlagsNormal(t, flags);
    assert "" + WithoutG(flags) == WithoutG(flags);
  }

  lemma SpecialReadBack(t: Tables, upper: string)
    requires Sound(t) && IsSpecial(t, upper)
    ensures SpecialShape((upper, Lookup(t.special, upper).value))
  {
    var name := Lookup(t.special, upper).value;
    var k :| 0 <= k < |t.special| && t.special[k] == (upper, name);
  }

  /**
   * Translating an nfs4 entry to FreeBSD's form and back keeps its type, its permission set, its inheritance
   * flags and its principal without the domain; the group marker survives except on the special principals.
   */
  lemma Nfs4RoundTrip(t: Tables, line: string)
    requires Sound(t) && ParseNfs4(line).Some?
    requires AceSpec(t, ParseNfs4(line).value).Ok?
    ensures ParseBsd(t, AceSpec(t, ParseNfs4(line).value).value).Some?
    ensures var e := ParseNfs4(line).value;
            var r := ParseBsd(t, AceSpec(t, e).value).value;
            var special := IsSpecial(t, ToUpper(e.qualifier));
            && r.tag == e.tag
            && (forall c :: c in r.perms <==> c in e.perms)
            && (forall c :: c != 'g' ==> (c in r.flags <==> c in e.flags))
            && ('g' in r.flags <==> 'g' in e.flags && !special)
            && (if special then r.qualifier == ToUpper(e.qualifier) else r.qualifier == NameOf(e.qualifier))
            && Ordered(t.nfs4, r.perms) && Ordered(t.flags + "g", r.flags)
  {
    var e := ParseNfs4(line).value;
    ParseOfSpec(t, e);
    NormalPerms(t, e);
    NormalFlags(t, e);
  }

  lemma NormalPerms(t: Tables, e: Entry)
    requires Sound(t) && forall k :: 0 <= k < |e.perms| ==> e.perms[k] in t.nfs4
    ensures forall c :: c in Normal(t, e).perms <==> c in e.perms
    ensures Ordered(t.nfs4, Normal(t, e).perms)
  {
    SelectMembers(t.nfs4, t.nfs4, e.perms);
    SelectOrdered(t.nfs4, t.nfs4, e.perms);
    assert forall c :: c in e.perms ==> c in t.nfs4;
  }

  lemma NormalFlags(t: Tables, e: Entry)
    requires Sound(t) && forall k :: 0 <= k < |e.flags| ==> KnownFlag(t, e.flags[k])
    ensures forall c :: c != 'g' ==> (c in Normal(t, e).flags <==> c in e.flags)
    ensures 'g' in Normal(t, e).flags <==> 'g' in e.flags && !IsSpecial(t, ToUpper(e.qualifier))
    ensures Ordered(t.flags + "g", Normal(t, e).flags)
  {
    WithoutGMembers(e.flags);
    OrderedFlagsMembers(t, e.flags);
    OrderedFlagsMembers(t, WithoutG(e.flags));
    assert forall c :: c in e.flags ==> KnownFlag(t, c);
  }

  lemma SelectedTwice(from: string, to: string, s: string)
    requires |from| == |to| && Distinct(to)
    ensures Select(to, to, Select(from, to, s)) == Select(from, to, s)
  {
    var r := Select(from, to, s);
    SelectMembers(from, to, s);
    SelectSame(to, from, to, r, s);
  }

  lemma OrderedTwice(t: Tables, flags: string)
    requires Sound(t)
    ensures OrderedFlags(t, OrderedFlags(t, flags)) == OrderedFlags(t, flags)
  {
    OrderedFlagsMembers(t, flags);
    var r := OrderedFlags(t, flags);
    assert forall k :: 0 <= k < |t.flags| ==> (t.flags[k] in r <==> t.flags[k] in flags);
    SelectSame(t.flags, t.flags, t.flags, r, flags);
  }

  lemma UpperTwice(s: string)
    ensures ToUpper(ToUpper(s)) == ToUpper(s)
    ensures ':' !in s ==> ':' !in ToUpper(s)
  {
  }

  /** A parsed line is in normal form but for its principal. */
  lemma ParsedIsNormal(t: Tables, line: string)
    requires Sound(t) && ParseBsd(t, line).Some?
    ensures var e := ParseBsd(t, line).value;
            && Lookup(t.types, e.tag).Some? && ':' !in e.qualifier
            && Select(t.nfs4, t.nfs4, e.perms) == e.perms
            && OrderedFlags(t, e.flags) == e.flags
            && (forall k :: 0 <= k < |e.perms| ==> e.perms[k] in t.nfs4)
            && (forall k :: 0 <= k < |e.flags| ==> KnownFlag(t, e.flags[k]))
  {
    var f := Split(line, ':');
    var e := ParseBsd(t, line).value;
    var (marker, rest) := if |f| == 4 then ("", f[1..]) else (if f[0] == "group" then "g" else "", f[2..]);
    UpperTwice(f[0]);
    SelectedTwice(t.bsd, t.nfs4, rest[0]);
    SelectMembers(t.bsd, t.nfs4, rest[0]);
    assert forall c :: c in e.perms ==> c in t.nfs4;
    OrderedTwice(t, marker + rest[1]);
    OrderedFlagsMembers(t, marker + rest[1]);
    assert (e.tag, rest[2]) in t.types;
  }

  /** What a caller can check before printing: the entry then comes back unchanged. */
  predicate RoundTrips(t: Tables, e: Entry) {
    e.perms != "" &&
    if IsSpecial(t, e.qualifier) then 'g' !in e.flags else e.qualifier != "" && '@' !in e.qualifier
  }

  lemma NameOfPlain(q: string)
    ensures NameOf(q) == q <==> '@' !in q
    ensures |NameOf(q)| <= |q|
  {
    if '@' in q {
      assert |NameOf(q)| < |q|;
    }
  }

  lemma SpecialNames(t: Tables, q: string)
    requires Sound(t)
    ensures IsSpecial(t, q) ==> ToUpper(q) == q
    ensures IsSpecial(t, ToUpper(q)) ==> '@' in q
  {
    if IsSpecial(t, q) {
      assert (q, Lookup(t.special, q).value) in t.special;
    }
    var u := ToUpper(q);
    if IsSpecial(t, u) {
      var name := Lookup(t.special, u).value;
      assert (u, name) in t.special;
      assert u[|name| - 1] == ToUpperChar('@');
      assert q[|name| - 1] == '@';
    }
  }

  /** Entries in normal form but for the principal are in normal form when the principal also is. */
  lemma NormalIsSame(t: Tables, e: Entry)
    requires Sound(t)
    requires Select(t.nfs4, t.nfs4, e.perms) == e.perms && OrderedFlags(t, e.flags) == e.flags
    ensures Normal(t, e) == e <==> if IsSpecial(t, e.qualifier) then 'g' !in e.flags else '@' !in e.qualifier
  {
    SpecialNames(t, e.qualifier);
    NameOfPlain(e.qualifier);
    var special := IsSpecial(t, ToUpper(e.qualifier));
    if special {
      FlagsNormal(t, e.flags);
      WithoutGMembers(e.flags);
      OrderedFlagsMembers(t, WithoutG(e.flags));
    }
  }

  /** A parsed FreeBSD line survives printing and parsing exactly when RoundTrips says so. */
  lemma FreeBSDRoundTrip(t: Tables, line: string)
    requires Sound(t) && ParseBsd(t, line).Some?
    ensures var e := ParseBsd(t, line).value;
            RoundTrips(t, e) <==> AceSpec(t, e).Ok? && ParseBsd(t, AceSpec(t, e).value) == Some(e)
  {
    var e := ParseBsd(t, line).value;
    ParsedIsNormal(t, line);
    NormalIsSame(t, e);
    AcceptedWhen(t, e);
    if AceSpec(t, e).Ok? {
      ParseOfSpec(t, e);
    }
  }

  /** When an entry whose letters are all known is accepted. */
  lemma AcceptedWhen(t: Tables, e: Entry)
    requires Sound(t) && Lookup(t.types, e.tag).Some?
    requires forall k :: 0 <= k < |e.perms| ==> e.perms[k] in t.nfs4
    requires forall k :: 0 <= k < |e.flags| ==> KnownFlag(t, e.flags[k])
    ensures AceSpec(t, e).Ok? <==> e.perms != "" && (IsSpecial(t, ToUpper(e.qualifier)) || NameOf(e.qualifier) != "")
    ensures RoundTrips(t, e) ==> AceSpec(t, e).Ok?
    ensures AceSpec(t, e).Ok? && !IsSpecial(t, e.qualifier) ==> e.qualifier != ""
  {
    SpecialNames(t, e.qualifier);
    NameOfPlain(e.qualifier);
  }

  /** Both round trips for the program's own tables. */
  lemma ProgramRoundTrips(line: string)
    ensures ParseBsd(FREEBSD, line).Some? ==>
      var e := ParseBsd(FREEBSD, line).value;
      RoundTrips(FREEBSD, e) <==> AceSpec(FREEBSD, e).Ok? && ParseBsd(FREEBSD, AceSpec(FREEBSD, e).value) == Some(e)
    ensures ParseNfs4(line).Some? && AceSpec(FREEBSD, ParseNfs4(line).value).Ok? ==>
      ParseBsd(FREEBSD, AceSpec(FREEBSD, ParseNfs4(line).value).value) == Some(Normal(FREEBSD, ParseNfs4(line).value))
  {
    FreeBSDTables();
    if ParseBsd(FREEBSD, line).Some? {
      FreeBSDRoundTrip(FREEBSD, line);
    }
    if ParseNfs4(line).Some? && AceSpec(FREEBSD, ParseNfs4(line).value).Ok? {
      ParseOfSpec(FREEBSD, ParseNfs4(line).value);
    }
  }
}
