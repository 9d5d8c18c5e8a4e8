/**
 * What the two text forms of an access control entry mean, told apart from the tables that translate between them: the
 * type numbers, mask bits and flag bits of section 6.2.1 of RFC 7530 (the inherited flag as in section 6.2.1.4 of
 * RFC 8881), once for the letters of nfs4-acl-tools and once for the words and letters of FreeBSD's setfacl.
 */
module AclMeaning {
  import opened Text
  import opened Acl

  // Types of entries
  const ACCESS_ALLOWED := 0
  const ACCESS_DENIED := 1
  const SYSTEM_AUDIT := 2
  const SYSTEM_ALARM := 3

  // Bits of the access mask
  const READ_DATA := 0x1
  const WRITE_DATA := 0x2
  const APPEND_DATA := 0x4
  const READ_NAMED_ATTRS := 0x8
  const WRITE_NAMED_ATTRS := 0x10
  const EXECUTE := 0x20
  const DELETE_CHILD := 0x40
  const READ_ATTRIBUTES := 0x80
  const WRITE_ATTRIBUTES := 0x100
  const DELETE := 0x1_0000
  const READ_ACL := 0x2_0000
  const WRITE_ACL := 0x4_0000
  const WRITE_OWNER := 0x8_0000
  const SYNCHRONIZE := 0x10_0000

  // Bits of the flags
  const FILE_INHERIT := 0x1
  const DIRECTORY_INHERIT := 0x2
  const NO_PROPAGATE_INHERIT := 0x4
  const INHERIT_ONLY := 0x8
  const SUCCESSFUL_ACCESS := 0x10
  const FAILED_ACCESS := 0x20
  const INHERITED := 0x80

  datatype Who = Owner | OwningGroup | Everyone | User(name: string) | Group(name: string)

  /** An entry as a file system has it; mask and flags as the sets of their bits. */
  datatype Ace = Ace(aceType: int, mask: set<int>, flags: set<int>, who: Who)

  // The bits that the letters of a text stand for.
  function Bits(meaning: char -> Option<int>, s: string): set<int> {
    set c | c in s && meaning(c).Some? :: meaning(c).value
  }

  /** The flag letters are the same in both forms; the group marker of nfs4-acl-tools is none. */
  function FlagBit(c: char): Option<int> {
    match c
    case 'f' => Some(FILE_INHERIT)
    case 'd' => Some(DIRECTORY_INHERIT)
    case 'n' => Some(NO_PROPAGATE_INHERIT)
    case 'i' => Some(INHERIT_ONLY)
    case 'S' => Some(SUCCESSFUL_ACCESS)
    case 'F' => Some(FAILED_ACCESS)
    case 'I' => Some(INHERITED)
    case _ => None
  }

  // ---- nfs4-acl-tools ----

  function Nfs4Type(tag: string): Option<int> {
    if tag == "A" then Some(ACCESS_ALLOWED)
    else if tag == "D" then Some(ACCESS_DENIED)
    else if tag == "U" then Some(SYSTEM_AUDIT)
    else if tag == "L" then Some(SYSTEM_ALARM)
    else None
  }

  function Nfs4Bit(c: char): Option<int> {
    match c
    case 'r' => Some(READ_DATA)
    case 'w' => Some(WRITE_DATA)
    case 'a' => Some(APPEND_DATA)
    case 'x' => Some(EXECUTE)
    case 'd' => Some(DELETE)
    case 'D' => Some(DELETE_CHILD)
    case 't' => Some(READ_ATTRIBUTES)
    case 'T' => Some(WRITE_ATTRIBUTES)
    case 'n' => Some(READ_NAMED_ATTRS)
    case 'N' => Some(WRITE_NAMED_ATTRS)
    case 'c' => Some(READ_ACL)
    case 'C' => Some(WRITE_ACL)
    case 'o' => Some(WRITE_OWNER)
    case 'y' => Some(SYNCHRONIZE)
    case _ => None
  }

  /** Special principals in any case, and otherwise a name without its domain, of a group if it is marked so. */
  function Nfs4Who(e: Entry): Who {
    var upper := ToUpper(e.qualifier);
    if upper == "OWNER@" then Owner
    else if upper == "GROUP@" then OwningGroup
    else if upper == "EVERYONE@" then Everyone
    else if 'g' in e.flags then Group(NameOf(e.qualifier))
    else User(NameOf(e.qualifier))
  }

  function Nfs4Meaning(e: Entry): Option<Ace> {
    match Nfs4Type(e.tag)
    case None => None
    case Some(n) => Some(Ace(n, Bits(Nfs4Bit, e.perms), Bits(FlagBit, e.flags), Nfs4Who(e)))
  }

  // ---- FreeBSD ----

  function BsdType(word: string): Option<int> {
    if word == "allow" then Some(ACCESS_ALLOWED)
    else if word == "deny" then Some(ACCESS_DENIED)
    else if word == "audit" then Some(SYSTEM_AUDIT)
    else if word == "alarm" then Some(SYSTEM_ALARM)
    else None
  }

  function BsdBit(c: char): Option<int> {
    match c
    case 'r' => Some(READ_DATA)
    case 'w' => Some(WRITE_DATA)
    case 'x' => Some(EXECUTE)
    case 'p' => Some(APPEND_DATA)
    case 'D' => Some(DELETE_CHILD)
    case 'd' => Some(DELETE)
    case 'a' => Some(READ_ATTRIBUTES)
    case 'A' => Some(WRITE_ATTRIBUTES)
    case 'R' => Some(READ_NAMED_ATTRS)
    case 'W' => Some(WRITE_NAMED_ATTRS)
    case 'c' => Some(READ_ACL)
    case 'C' => Some(WRITE_ACL)
    case 'o' => Some(WRITE_OWNER)
    case 's' => Some(SYNCHRONIZE)
    case _ => None
  }

  function BsdWho(f: seq<string>): Option<Who> {
    if |f| == 1 && f[0] == "owner@" then Some(Owner)
    else if |f| == 1 && f[0] == "group@" then Some(OwningGroup)
    else if |f| == 1 && f[0] == "everyone@" then Some(Everyone)
    else if |f| == 2 && f[0] == "user" then Some(User(f[1]))
    else if |f| == 2 && f[0] == "group" then Some(Group(f[1]))
    else None
  }

  /** The fields of a line: the principal in one field or two, then permissions, flags and type. */
  function BsdMeaning(f: seq<string>): Option<Ace> {
    var n := |f| - 3;
    if n < 1 || BsdWho(f[..n]).None? || BsdType(f[n + 2]).None? then None
    else Some(Ace(BsdType(f[n + 2]).value, Bits(BsdBit, f[n]), Bits(FlagBit, f[n + 1]), BsdWho(f[..n]).value))
  }

  // ---- The tables agree with the meanings ----

  lemma TypeOfTag(tag: string)
    ensures Lookup(FREEBSD.types, tag).Some? <==> Nfs4Type(tag).Some?
    ensures Nfs4Type(tag).Some? ==> BsdType(Lookup(FREEBSD.types, tag).value) == Nfs4Type(tag)
  {
    WordsDiffer();
    var t := FREEBSD.types;
    assert t[0] == ("A", "allow") && t[1] == ("D", "deny") && t[2] == ("U", "audit") && t[3] == ("L", "alarm");
    assert (tag, "allow") in t ==> tag == "A";
  }

  lemma TagOfType(word: string)
    ensures KeyOf(FREEBSD.types, word).Some? <==> BsdType(word).Some?
    ensures BsdType(word).Some? ==> Nfs4Type(KeyOf(FREEBSD.types, word).value) == BsdType(word)
  {
    WordsDiffer();
    var t := FREEBSD.types;
    assert t[0] == ("A", "allow") && t[1] == ("D", "deny") && t[2] == ("U", "audit") && t[3] == ("L", "alarm");
  }

  lemma WordsDiffer()
    ensures "allow" != "deny" && "allow" != "audit" && "allow" != "alarm"
    ensures "deny" != "audit" && "deny" != "alarm" && "audit" != "alarm"
    ensures "A" != "D" && "A" != "U" && "A" != "L" && "D" != "U" && "D" != "L" && "U" != "L"
  {
    assert "allow"[2] == 'l' && "alarm"[2] == 'a' && "audit"[2] == 'd' && |"deny"| == 4 && |"allow"| == 5;
    assert "A"[0] == 'A' && "D"[0] == 'D' && "U"[0] == 'U' && "L"[0] == 'L';
  }

  lemma PermPairs()
    ensures |FREEBSD.nfs4| == |FREEBSD.bsd| == 14
    ensures forall k :: 0 <= k < 14 ==>
      Nfs4Bit(FREEBSD.nfs4[k]).Some? && BsdBit(FREEBSD.bsd[k]) == Nfs4Bit(FREEBSD.nfs4[k])
  {
  }

  lemma Nfs4Letters(c: char)
    ensures c in FREEBSD.nfs4 <==> Nfs4Bit(c).Some?
  {
    if c in FREEBSD.nfs4 {
      PermPairs();
    }
  }

  lemma BsdLetters(c: char)
    ensures c in FREEBSD.bsd <==> BsdBit(c).Some?
  {
    if c in FREEBSD.bsd {
      PermPairs();
    } else {
      NoBsdLetter(c, FREEBSD.bsd);
    }
  }

  lemma NoBsdLetter(c: char, letters: string)
    requires letters == "rwxpDdaARWcCos" && c !in letters
    ensures BsdBit(c).None?
  {
    assert letters[0] == 'r' && letters[1] == 'w' && letters[2] == 'x' && letters[3] == 'p' && letters[4] == 'D';
    assert letters[5] == 'd' && letters[6] == 'a' && letters[7] == 'A' && letters[8] == 'R' && letters[9] == 'W';
    assert letters[10] == 'c' && letters[11] == 'C' && letters[12] == 'o' && letters[13] == 's';
  }

  lemma FlagLetters(c: char)
    ensures c in FREEBSD.flags <==> FlagBit(c).Some?
    ensures KnownFlag(FREEBSD, c) <==> c == 'g' || FlagBit(c).Some?
  {
  }

  lemma SpecialOf(upper: string)
    ensures Lookup(FREEBSD.special, upper).Some? <==> upper == "OWNER@" || upper == "GROUP@" || upper == "EVERYONE@"
    ensures upper == "OWNER@" ==> Lookup(FREEBSD.special, upper) == Some("owner@")
    ensures upper == "GROUP@" ==> Lookup(FREEBSD.special, upper) == Some("group@")
    ensures upper == "EVERYONE@" ==> Lookup(FREEBSD.special, upper) == Some("everyone@")
  {
    SpecialNamesDiffer();
    var t := FREEBSD.special;
    assert t[0] == ("OWNER@", "owner@") && t[1] == ("GROUP@", "group@") && t[2] == ("EVERYONE@", "everyone@");
  }

  lemma SpecialNamesDiffer()
    ensures "OWNER@" != "GROUP@" && "OWNER@" != "EVERYONE@" && "GROUP@" != "EVERYONE@"
    ensures "owner@" != "group@" && "owner@" != "everyone@" && "group@" != "everyone@"
  {
    assert |"OWNER@"| == |"GROUP@"| == 6 && |"EVERYONE@"| == 9 && "OWNER@"[0] == 'O' && "GROUP@"[0] == 'G';
    assert |"owner@"| == |"group@"| == 6 && |"everyone@"| == 9 && "owner@"[0] == 'o' && "group@"[0] == 'g';
  }

  // ---- Printing ----

  lemma PrintedPrincipal(e: Entry)
    ensures BsdWho(Principal(FREEBSD, e)) == Some(Nfs4Who(e))
  {
    SpecialOf(ToUpper(e.qualifier));
    SpecialNamesDiffer();
    assert "user" != "group" by { assert |"user"| == 4 && |"group"| == 5; }
  }

  lemma PrintedMask(perms: string)
    requires forall k :: 0 <= k < |perms| ==> perms[k] in FREEBSD.nfs4
    ensures Bits(BsdBit, BsdPerms(FREEBSD, perms)) == Bits(Nfs4Bit, perms)
  {
    var b := BsdPerms(FREEBSD, perms);
    forall k | 0 <= k < |perms| ensures BsdBit(b[k]) == Nfs4Bit(perms[k]) && Nfs4Bit(perms[k]).Some? {
      PairOf(perms[k]);
    }
    forall n ensures n in Bits(BsdBit, b) <==> n in Bits(Nfs4Bit, perms) {
      if n in Bits(BsdBit, b) {
        var k :| 0 <= k < |b| && BsdBit(b[k]) == Some(n);
        assert perms[k] in perms;
      }
      if n in Bits(Nfs4Bit, perms) {
        var k :| 0 <= k < |perms| && Nfs4Bit(perms[k]) == Some(n);
        assert b[k] in b;
      }
    }
  }

  lemma PairOf(c: char)
    requires c in FREEBSD.nfs4
    ensures Nfs4Bit(c).Some? && BsdBit(FREEBSD.bsd[IndexByte(FREEBSD.nfs4, c)]) == Nfs4Bit(c)
  {
    PermPairs();
    assert FREEBSD.nfs4[IndexByte(FREEBSD.nfs4, c)] == c;
  }

  lemma PrintedFlags(flags: string)
    ensures Bits(FlagBit, WithoutG(flags)) == Bits(FlagBit, flags)
  {
    WithoutGMembers(flags);
  }

  // The fields of the line that is printed.
  function FieldsOf(e: Entry): (f: seq<string>)
    requires AceSpec(FREEBSD, e).Ok?
    ensures 4 <= |f| <= 5 && AceSpec(FREEBSD, e).value == Join(f, ':')
  {
    Principal(FREEBSD, e) + [BsdPerms(FREEBSD, e.perms), WithoutG(e.flags), Lookup(FREEBSD.types, e.tag).value]
  }

  /**
   * The fields of a printed entry mean what the entry means: type, mask, flags and principal. The line is those fields,
   * and is split into them again unless the principal contains a colon, which no entry that was read has.
   */
  lemma PrintKeepsMeaning(e: Entry)
    requires AceSpec(FREEBSD, e).Ok?
    ensures Nfs4Meaning(e).Some? && BsdMeaning(FieldsOf(e)) == Nfs4Meaning(e)
    ensures AceSpec(FREEBSD, e).value == Join(FieldsOf(e), ':')
    ensures ':' !in e.qualifier ==> Split(AceSpec(FREEBSD, e).value, ':') == FieldsOf(e)
  {
    var p, f := Principal(FREEBSD, e), FieldsOf(e);
    assert f[..|f| - 3] == p;
    TypeOfTag(e.tag);
    PrintedPrincipal(e);
    PrintedMask(e.perms);
    PrintedFlags(e.flags);
    if ':' !in e.qualifier {
      FreeBSDTables();
      PrintedFields(FREEBSD, e);
    }
  }

  predicate AllMean(meaning: char -> Option<int>, also: string, s: string) {
    forall k :: 0 <= k < |s| ==> s[k] in also || meaning(s[k]).Some?
  }

  /** c is the first letter that means nothing. */
  predicate FirstMeaningless(meaning: char -> Option<int>, also: string, s: string, c: char) {
    c in s && c !in also && meaning(c).None? && AllMean(meaning, also, s[..IndexByte(s, c)])
  }

  // n is the place of the first letter that means nothing.
  lemma FirstOf(meaning: char -> Option<int>, also: string, s: string, n: nat)
    requires n <= |s| && AllMean(meaning, also, s[..n])
    requires n < |s| ==> s[n] !in also && meaning(s[n]).None?
    ensures n == |s| <==> AllMean(meaning, also, s)
    ensures n < |s| ==> FirstMeaningless(meaning, also, s, s[n])
  {
    if n == |s| {
      assert s[..n] == s;
    } else {
      assert s[n] !in s[..n];
      assert s == s[..n] + [s[n]] + s[n + 1..];
      IndexOfFirst(s[..n], s[n], s[n + 1..]);
    }
  }

  // For tables whose letters are those that mean something.
  lemma KnownPerms(t: Tables, perms: string)
    requires forall c :: c in t.nfs4 <==> Nfs4Bit(c).Some?
    ensures FirstBadPerm(t, perms) == |perms| <==> AllMean(Nfs4Bit, "", perms)
    ensures FirstBadPerm(t, perms) < |perms| ==>
      FirstMeaningless(Nfs4Bit, "", perms, perms[FirstBadPerm(t, perms)])
  {
    FirstOf(Nfs4Bit, "", perms, FirstBadPerm(t, perms));
  }

  lemma KnownFlags(t: Tables, flags: string)
    requires forall c :: c in t.flags <==> FlagBit(c).Some?
    ensures FirstBadFlag(t, flags) == |flags| <==> AllMean(FlagBit, "g", flags)
    ensures FirstBadFlag(t, flags) < |flags| ==>
      FirstMeaningless(FlagBit, "g", flags, flags[FirstBadFlag(t, flags)])
  {
    FirstOf(FlagBit, "g", flags, FirstBadFlag(t, flags));
  }

  lemma LettersMean()
    ensures forall c :: c in FREEBSD.nfs4 <==> Nfs4Bit(c).Some?
    ensures forall c :: c in FREEBSD.flags <==> FlagBit(c).Some?
  {
    forall c ensures c in FREEBSD.nfs4 <==> Nfs4Bit(c).Some? {
      Nfs4Letters(c);
    }
    forall c ensures c in FREEBSD.flags <==> FlagBit(c).Some? {
      FlagLetters(c);
    }
  }

  lemma Nameless(e: Entry)
    ensures !IsSpecial(FREEBSD, ToUpper(e.qualifier)) && NameOf(e.qualifier) == "" <==>
      Nfs4Who(e) == User("") || Nfs4Who(e) == Group("")
  {
    SpecialOf(ToUpper(e.qualifier));
  }

  /**
   * An entry is printed exactly if its type, permissions and flags mean something, it has permissions and somebody to
   * have them; otherwise the error is the first of these reasons, and names the first letter that means nothing.
   */
  lemma PrintedIff(e: Entry)
    ensures match AceSpec(FREEBSD, e)
      case Err(UnsupportedType) => Nfs4Type(e.tag).None?
      case Err(UnsupportedPerm(c)) => Nfs4Type(e.tag).Some? && FirstMeaningless(Nfs4Bit, "", e.perms, c)
      case Err(NoPermissions) => Nfs4Type(e.tag).Some? && e.perms == ""
      case Err(UnsupportedFlag(c)) =>
        && Nfs4Type(e.tag).Some? && e.perms != "" && AllMean(Nfs4Bit, "", e.perms)
        && FirstMeaningless(FlagBit, "g", e.flags, c)
      case Err(NoPrincipal) =>
        && Nfs4Type(e.tag).Some? && e.perms != "" && AllMean(Nfs4Bit, "", e.perms) && AllMean(FlagBit, "g", e.flags)
        && Nfs4Who(e) in {User(""), Group("")}
      case Ok(_) =>
        && Nfs4Type(e.tag).Some? && e.perms != "" && AllMean(Nfs4Bit, "", e.perms) && AllMean(FlagBit, "g", e.flags)
        && Nfs4Who(e) !in {User(""), Group("")}
  {
    TypeOfTag(e.tag);
    LettersMean();
    KnownPerms(FREEBSD, e.perms);
    KnownFlags(FREEBSD, e.flags);
    Nameless(e);
  }

  // ---- Reading ----

  lemma ReadMask(s: string)
    ensures Bits(Nfs4Bit, Select(FREEBSD.bsd, FREEBSD.nfs4, s)) == Bits(BsdBit, s)
  {
    var perms := Select(FREEBSD.bsd, FREEBSD.nfs4, s);
    PermPairs();
    SelectMembers(FREEBSD.bsd, FREEBSD.nfs4, s);
    forall n ensures n in Bits(Nfs4Bit, perms) <==> n in Bits(BsdBit, s) {
      if n in Bits(Nfs4Bit, perms) {
        var c :| c in perms && Nfs4Bit(c) == Some(n);
        var k :| 0 <= k < 14 && FREEBSD.nfs4[k] == c && FREEBSD.bsd[k] in s;
        assert BsdBit(FREEBSD.bsd[k]) == Some(n);
      }
      if n in Bits(BsdBit, s) {
        var c :| c in s && BsdBit(c) == Some(n);
        BsdLetters(c);
        var k :| 0 <= k < 14 && FREEBSD.bsd[k] == c;
        assert FREEBSD.nfs4[k] in perms && Nfs4Bit(FREEBSD.nfs4[k]) == Some(n);
      }
    }
  }

  lemma ReadFlags(s: string)
    ensures Bits(FlagBit, OrderedFlags(FREEBSD, s)) == Bits(FlagBit, s)
    ensures 'g' in OrderedFlags(FREEBSD, s) <==> 'g' in s
  {
    FreeBSDTables();
    OrderedFlagsMembers(FREEBSD, s);
    forall c ensures KnownFlag(FREEBSD, c) <==> c == 'g' || FlagBit(c).Some? {
      FlagLetters(c);
    }
  }

  /** The last three fields are read with their meaning. */
  lemma FieldsRead(qualifier: string, marker: string, f: seq<string>)
    requires |f| == 3 && (marker == "" || marker == "g")
    ensures BsdEntry(FREEBSD, qualifier, marker, f).Some? <==> BsdType(f[2]).Some?
    ensures BsdType(f[2]).Some? ==>
      var e := BsdEntry(FREEBSD, qualifier, marker, f).value;
      && e.qualifier == qualifier && Nfs4Type(e.tag) == BsdType(f[2])
      && Bits(Nfs4Bit, e.perms) == Bits(BsdBit, f[0]) && Bits(FlagBit, e.flags) == Bits(FlagBit, f[1])
      && ('g' in e.flags <==> marker == "g" || 'g' in f[1])
  {
    TagOfType(f[2]);
    ReadMask(f[0]);
    ReadFlags(marker + f[1]);
  }

  lemma ReadSpecial(name: string)
    requires BsdWho([name]).Some?
    ensures name != "" && name[|name| - 1] == '@'
    ensures forall e: Entry :: e.qualifier == ToUpper(name) ==> Nfs4Who(e) == BsdWho([name]).value
  {
    SpecialNamesDiffer();
    UpperTwice(name);
    if name == "owner@" {
      assert ToUpper(name) == "OWNER@";
    } else if name == "group@" {
      assert ToUpper(name) == "GROUP@";
    } else {
      assert ToUpper(name) == "EVERYONE@";
    }
  }

  lemma ReadName(e: Entry)
    ensures Nfs4Who(e) == (if 'g' in e.flags then Group(e.qualifier) else User(e.qualifier)) <==> '@' !in e.qualifier
  {
    var u := ToUpper(e.qualifier);
    NameOfPlain(e.qualifier);
    assert "OWNER@"[5] == '@' && "GROUP@"[5] == '@' && "EVERYONE@"[8] == '@';
    assert '@' in u ==> '@' in e.qualifier by {
      if k :| 0 <= k < |u| && u[k] == '@' {
        assert e.qualifier[k] == '@';
      }
    }
  }

  // What keeps a named principal: no domain, and no group marker among the flags of a user.
  predicate PlainPrincipal(f: seq<string>)
    requires |f| == 5
  {
    '@' !in f[1] && (f[0] == "group" || 'g' !in f[3])
  }

  lemma ReadSpecialLine(f: seq<string>)
    requires |f| == 4 && BsdMeaning(f).Some? && |FREEBSD.nfs4| == |FREEBSD.bsd|
    ensures ParseFields(FREEBSD, f).Some? && Nfs4Meaning(ParseFields(FREEBSD, f).value) == BsdMeaning(f)
  {
    assert f[..1] == [f[0]];
    ReadSpecial(f[0]);
    FieldsRead(ToUpper(f[0]), "", f[1..]);
  }

  lemma ReadNamedLine(f: seq<string>)
    requires |f| == 5 && BsdMeaning(f).Some? && |FREEBSD.nfs4| == |FREEBSD.bsd|
    ensures ParseFields(FREEBSD, f).Some?
    ensures var e, m := ParseFields(FREEBSD, f).value, BsdMeaning(f).value;
      && Nfs4Meaning(e).Some? && Nfs4Meaning(e).value.(who := m.who) == m
      && (Nfs4Meaning(e) == Some(m) <==> PlainPrincipal(f))
  {
    var marker := if f[0] == "group" then "g" else "";
    FieldsRead(f[1], marker, f[2..]);
    ReadName(BsdEntry(FREEBSD, f[1], marker, f[2..]).value);
  }

  /**
   * A line that means something is read, and the entry means the same: type, mask and flags always, and the principal
   * exactly if it is a special one or PlainPrincipal.
   */
  lemma ReadKeepsMeaning(line: string)
    requires BsdMeaning(Split(line, ':')).Some?
    ensures ParseBsd(FREEBSD, line).Some?
    ensures var f, e := Split(line, ':'), ParseBsd(FREEBSD, line).value;
      var m := BsdMeaning(f).value;
      && Nfs4Meaning(e).Some? && Nfs4Meaning(e).value.(who := m.who) == m
      && (Nfs4Meaning(e) == Some(m) <==> |f| == 4 || PlainPrincipal(f))
  {
    var f := Split(line, ':');
    PermPairs();
    if |f| == 4 {
      ReadSpecialLine(f);
    } else {
      ReadNamedLine(f);
    }
  }

  // The shape of a line that is read, for any tables.
  predicate Readable(t: Tables, f: seq<string>) {
    && (|f| == 4 || |f| == 5) && KeyOf(t.types, f[|f| - 1]).Some? && KeyOf(t.types, f[|f| - 1]).value != ""
    && if |f| == 4 then f[0] != "" && f[0][|f[0]| - 1] == '@' else f[0] == "user" || f[0] == "group"
  }

  lemma ReadShape(t: Tables, line: string)
    requires |t.nfs4| == |t.bsd|
    ensures ParseBsd(t, line).Some? <==> Readable(t, Split(line, ':'))
  {
    ReadFieldsShape(t, Split(line, ':'));
  }

  lemma ReadFieldsShape(t: Tables, f: seq<string>)
    requires |t.nfs4| == |t.bsd|
    ensures ParseFields(t, f).Some? <==> |f| > 0 && Readable(t, f)
  {
    assert |f| == 4 ==> f[1..][2] == f[3];
    assert |f| == 5 ==> f[2..][2] == f[4];
  }

  /** And every line that is read has a type that means something, and a principal of one of the two shapes. */
  lemma ReadIff(line: string)
    ensures var f := Split(line, ':');
      ParseBsd(FREEBSD, line).Some? <==>
        && (|f| == 4 || |f| == 5) && BsdType(f[|f| - 1]).Some?
        && if |f| == 4 then f[0] != "" && f[0][|f[0]| - 1] == '@' else f[0] == "user" || f[0] == "group"
  {
    var f := Split(line, ':');
    PermPairs();
    ReadShape(FREEBSD, line);
    TagOfType(f[|f| - 1]);
  }

  /** What is read has its letters in the order of nfs4_getfacl's display, each once. */
  lemma ReadInOrder(line: string)
    requires ParseBsd(FREEBSD, line).Some?
    ensures Ordered("rwxaDdtTnNcCoy", ParseBsd(FREEBSD, line).value.perms)
    ensures Ordered("fdinSFIg", ParseBsd(FREEBSD, line).value.flags)
  {
    FreeBSDTables();
    ReadInTableOrder(FREEBSD, line);
  }

  lemma ReadInTableOrder(t: Tables, line: string)
    requires Sound(t) && ParseBsd(t, line).Some?
    ensures Ordered(t.nfs4, ParseBsd(t, line).value.perms) && Ordered(t.flags + "g", ParseBsd(t, line).value.flags)
  {
    var f := Split(line, ':');
    var (marker, rest) := if |f| == 4 then ("", f[1..]) else (if f[0] == "group" then "g" else "", f[2..]);
    SelectOrdered(t.bsd, t.nfs4, rest[0]);
    OrderedFlagsMembers(t, marker + rest[1]);
  }
}
