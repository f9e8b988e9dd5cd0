/** How revision numbers go into file names, and how a restarted logger reads them back. */
module RevisionNames {
  import opened Wrappers

  // Numbers as text.

  function Digit(d: nat): char
    requires d < 10
  {
    ['0', '1', '2', '3', '4', '5', '6', '7', '8', '9'][d]
  }

  predicate IsDigit(c: char) {
    '0' <= c <= '9'
  }

  function Value(c: char): nat
    requires IsDigit(c)
  {
    c as int - '0' as int
  }

  /** std::to_string on an unsigned number. */
  function Decimal(n: nat): string {
    if n < 10 then [Digit(n)] else Decimal(n / 10) + [Digit(n % 10)]
  }

  predicate IsSpace(c: char) {
    c == ' ' || 9 <= c as int <= 13
  }

  /** The value of the digits s starts with, after `before`. */
  function LeadingDigits(s: string, before: nat): nat {
    if s != [] && IsDigit(s[0]) then LeadingDigits(s[1..], 10 * before + Value(s[0])) else before
  }

  /** atoi, on numbers an int can hold: leading space, a sign, digits; anything else is zero. */
  function Atoi(s: string): int {
    if s == [] then 0
    else if IsSpace(s[0]) then Atoi(s[1..])
    else if s[0] == '-' then 0 - LeadingDigits(s[1..], 0)
    else if s[0] == '+' then LeadingDigits(s[1..], 0)
    else LeadingDigits(s, 0)
  }

  const SIZE_T: nat := 0x1_0000_0000_0000_0000

  function ToSize(i: int): nat {
    i % SIZE_T
  }

  predicate AllDigits(s: string) {
    forall i :: 0 <= i < |s| ==> IsDigit(s[i])
  }

  lemma {:induction false} LeadingDigitsSnoc(s: string, c: char, before: nat)
    requires AllDigits(s) && IsDigit(c)
    ensures LeadingDigits(s + [c], before) == 10 * LeadingDigits(s, before) + Value(c)
  {
    if s == [] {
      assert ([c])[1..] == [];
    } else {
      assert (s + [c])[1..] == s[1..] + [c];
      LeadingDigitsSnoc(s[1..], c, 10 * before + Value(s[0]));
    }
  }

  lemma {:induction false} DecimalReadsBack(n: nat)
    ensures AllDigits(Decimal(n)) && Decimal(n) != [] && LeadingDigits(Decimal(n), 0) == n
    decreases n
  {
    if n < 10 {
      assert Decimal(n)[1..] == [];
    } else {
      DecimalReadsBack(n / 10);
      LeadingDigitsSnoc(Decimal(n / 10), Digit(n % 10), 0);
    }
  }

  // Names.

  /** The name of a revision's plain file, after the file name the logger was given. */
  function PlainName(base: string, r: nat): string {
    if r != 0 then base + "." + Decimal(r) else base
  }

  function ArchiveName(base: string, r: nat): string {
    PlainName(base, r) + ".tar.gz"
  }

  /** rfind of one character. */
  function RFind(s: string, c: char): Option<nat> {
    if s == [] then None
    else if s[|s| - 1] == c then Some(|s| - 1)
    else RFind(s[..|s| - 1], c)
  }

  lemma {:induction false} RFindBefore(a: string, c: char, b: string)
    requires c !in b
    ensures RFind(a + [c] + b, c) == Some(|a|)
  {
    if b == [] {
      assert a + [c] + b == a + [c];
    } else {
      var s := a + [c] + b;
      assert s[..|s| - 1] == a + [c] + b[..|b| - 1];
      RFindBefore(a, c, b[..|b| - 1]);
    }
  }

  datatype Parsed = Skipped | Revision(rev: nat, archive: bool)

  function Extension(name: string, dot: nat): string
    requires dot < |name|
  {
    name[dot + 1..]
  }

  /** What the scan makes of one file name. */
  function Parse(name: string): Parsed {
    var dot := RFind(name, '.');
    if dot.None? then Skipped
    else
      assert dot.value < |name| by { RFindInRange(name, '.'); }
      var ext := Extension(name, dot.value);
      if ext == "gz" && |name| > 7 then
        var inner := name[..|name| - 7];
        var innerDot := RFind(inner, '.');
        if innerDot.None? then Skipped
        else
          assert innerDot.value < |inner| by { RFindInRange(inner, '.'); }
          Revision(ToSize(Atoi(Extension(inner, innerDot.value))), true)
      else Revision(ToSize(Atoi(ext)), false)
  }

  lemma {:induction false} RFindInRange(s: string, c: char)
    ensures RFind(s, c).Some? ==> RFind(s, c).value < |s|
    decreases |s|
  {
    if s != [] && s[|s| - 1] != c {
      RFindInRange(s[..|s| - 1], c);
    }
  }

  /** The newest revision a name vouches for: an archived one was closed, so the next exists. */
  function Newest(p: Parsed): nat
    requires p.Revision?
  {
    if p.archive then ToSize(p.rev + 1) else p.rev
  }

  // What the scan relies on.

  /** A base name with an extension that atoi reads as zero and that does not look like an
      archive's: such a name is itself read as the plain file of revision 0. */
  predicate GoodBase(base: string) {
    var dot := RFind(base, '.');
    && dot.Some?
    && (RFindInRange(base, '.');
        var ext := Extension(base, dot.value);
        ToSize(Atoi(ext)) == 0 && !(ext == "gz" && |base| > 7))
  }

  /** The revisions atoi can read back. */
  predicate Readable(r: nat) {
    r < 0x8000_0000
  }

  lemma {:induction false} DigitsHaveNoDot(n: nat)
    ensures '.' !in Decimal(n)
  {
    DecimalReadsBack(n);
  }

  lemma {:induction false} AtoiDecimal(n: nat)
    ensures Atoi(Decimal(n)) == n
  {
    DecimalReadsBack(n);
    assert IsDigit(Decimal(n)[0]);
  }

  /** Printing and parsing undo each other for every revision but 0, whatever the base name. */
  lemma NumberedNamesReadBack(base: string, r: nat)
    requires 0 < r && Readable(r)
    ensures Parse(PlainName(base, r)) == Revision(r, false)
    ensures Parse(ArchiveName(base, r)) == Revision(r, true)
  {
    hide Atoi, LeadingDigits, Decimal;
    var name := PlainName(base, r);
    DigitsHaveNoDot(r);
    RFindBefore(base, '.', Decimal(r));
    assert name == base + ['.'] + Decimal(r);
    assert Extension(name, |base|) == Decimal(r);
    AtoiDecimal(r);
    DecimalReadsBack(r);
    assert name != "";
    assert Decimal(r) != "gz" by {
      assert IsDigit(Decimal(r)[0]);
      assert !IsDigit("gz"[0]);
    }
    ArchiveParses(name);
  }

  lemma TarSuffix(name: string)
    ensures var full := name + ".tar.gz";
            full == name + ".tar" + ['.'] + "gz" && full[..|full| - 7] == name
  {
  }

  /** An archive is read through the name it was made from. */
  lemma {:induction false} ArchiveParses(name: string)
    requires name != ""
    ensures Parse(name + ".tar.gz")
         == if RFind(name, '.').None? then Skipped
            else (RFindInRange(name, '.'); Revision(ToSize(Atoi(Extension(name, RFind(name, '.').value))), true))
  {
    hide Atoi, RFind;
    var full := name + ".tar.gz";
    TarSuffix(name);
    RFindBefore(name + ".tar", '.', "gz");
    assert Extension(full, |name| + 4) == "gz";
  }

  lemma ShortNamesParse()
    ensures Parse("a.gz") == Revision(0, false) && Parse("a.7.tar.gz") == Revision(7, true) && Parse("agz") == Skipped
  {
    assert Atoi("gz") == 0 && Decimal(7) == "7";
    hide Atoi, Decimal, LeadingDigits, RFind;
    RFindBefore("a", '.', "gz");
    assert "a" + ['.'] + "gz" == "a.gz" && Extension("a.gz", 1) == "gz";
    assert ArchiveName("a", 7) == "a.7.tar.gz";
    NumberedNamesReadBack("a", 7);
    NoDotInAgz();
  }

  lemma NoDotInAgz()
    ensures RFind("agz", '.').None?
  {
    assert "agz"[..2] == "ag" && "ag"[..1] == "a" && "a"[..0] == "";
    assert RFind("a", '.').None? && RFind("ag", '.').None?;
  }

  /** How the names look, and what is read from others. */
  lemma NamesLookLikeThis()
    ensures PlainName("server.log", 0) == "server.log" && PlainName("server.log", 120) == "server.log.120"
    ensures ArchiveName("server.log", 7) == "server.log.7.tar.gz"
    ensures Parse("a.gz") == Revision(0, false) && Parse("a.7.tar.gz") == Revision(7, true) && Parse("agz") == Skipped
    ensures Atoi(" 42x") == 42 && Atoi("-7") == -7 && Atoi("+7") == 7 && Atoi("log") == 0
  {
    hide Parse, Atoi, Decimal;
    DecimalsLook();
    ShortNamesParse();
    NumbersRead();
  }

  lemma DecimalsLook()
    ensures Decimal(7) == "7" && Decimal(120) == "120"
  {
    assert Decimal(12) == "12";
  }

  lemma NumbersRead()
    ensures Atoi(" 42x") == 42 && Atoi("-7") == -7 && Atoi("+7") == 7 && Atoi("log") == 0
  {
    assert " 42x"[1..] == "42x" && "42x"[1..] == "2x" && "2x"[1..] == "x";
    assert "-7"[1..] == "7" && "+7"[1..] == "7" && "7"[1..] == "";
    assert LeadingDigits("2x", 4) == 42 && LeadingDigits("42x", 0) == 42 && LeadingDigits("7", 0) == 7;
  }

  /** For revision 0 the name is the base name. */
  lemma BaseNameReadsBack(base: string)
    requires base != ""
    ensures Parse(PlainName(base, 0)) == Revision(0, false) <==> GoodBase(base)
    ensures GoodBase(base) ==> Parse(ArchiveName(base, 0)) == Revision(0, true)
  {
    RFindInRange(base, '.');
    ArchiveParses(base);
  }

  // The scan of a directory.

  predicate OccursAt(s: string, part: string, i: nat) {
    i + |part| <= |s| && s[i..i + |part|] == part
  }

  predicate Contains(s: string, part: string) {
    exists i: nat :: i <= |s| && OccursAt(s, part, i)
  }

  datatype Found = Found(initialized: bool, min: nat, max: nat)

  function Note(f: Found, p: Parsed): Found {
    if p.Skipped? then f
    else Found(true,
               if f.initialized && f.min < p.rev then f.min else p.rev,
               if f.max < Newest(p) then Newest(p) else f.max)
  }

  function Scan(names: seq<string>, base: string): Found {
    if names == [] then Found(false, 0, 0)
    else
      var before, name := Scan(names[..|names| - 1], base), names[|names| - 1];
      if Contains(name, base) then Note(before, Parse(name)) else before
  }

  method FindMinMaxRevNumInternal(initialized: bool, min: nat, max: nat, name: string)
    returns (initialized': bool, min': nat, max': nat)
    ensures Found(initialized', min', max') == Note(Found(initialized, min, max), Parse(name))
  {
    hide Atoi, RFind;
    initialized', min', max' := initialized, min, max;
    var fName := name;
    var lastDot := RFind(fName, '.');
    if lastDot.None? {
      return;
    }
    RFindInRange(fName, '.');

    var compFile := false;
    var ext := Extension(fName, lastDot.value);
    if ext == "gz" && |fName| > 7 {
      // An archive: the revision is the extension in front of ".tar.gz".
      fName := fName[..|fName| - 7];
      lastDot := RFind(fName, '.');
      if lastDot.None? {
        return;
      }
      RFindInRange(fName, '.');
      ext := Extension(fName, lastDot.value);
      compFile := true;
    }

    var revnum := ToSize(Atoi(ext));
    var newest := if compFile then ToSize(revnum + 1) else revnum;
    max' := if max' < newest then newest else max';
    if !initialized' {
      min' := revnum;
      initialized' := true;
    }
    min' := if revnum < min' then revnum else min';
  }

  method FindMinMaxRevNum(names: seq<string>, base: string) returns (min: nat, max: nat)
    ensures min == Scan(names, base).min && max == Scan(names, base).max
  {
    hide Parse;
    var initialized := false;
    min, max := 0, 0;
    for i := 0 to |names|
      invariant Found(initialized, min, max) == Scan(names[..i], base)
    {
      assert names[..i + 1][..i] == names[..i];
      // Irrelevant file: skip.
      if Contains(names[i], base) {
        initialized, min, max := FindMinMaxRevNumInternal(initialized, min, max, names[i]);
      }
    }
    assert names[..|names|] == names;
  }

  // Recovery.

  datatype Entry = Other(name: string) | LogFile(rev: nat, archive: bool)

  function NameOf(base: string, e: Entry): string {
    match e
    case Other(name) => name
    case LogFile(r, archive) => if archive then ArchiveName(base, r) else PlainName(base, r)
  }

  function Names(base: string, dir: seq<Entry>): (names: seq<string>)
    ensures |names| == |dir|
  {
    seq(|dir|, i requires 0 <= i < |dir| => NameOf(base, dir[i]))
  }

  /** A directory the logger left behind, listed in any order: the active revision as a plain
      file, older ones plain, archived or both, and files that have nothing to do with it. */
  ghost predicate LoggerDirectory(base: string, dir: seq<Entry>, cur: nat) {
    && LogFile(cur, false) in dir
    && forall e :: e in dir ==>
         match e
         case Other(name) => !Contains(name, base)
         case LogFile(r, archive) => Readable(r) && r <= cur && (archive ==> r < cur)
  }

  /** The scan recovers the oldest revision on disk and the active one. */
  ghost predicate Recovers(base: string, dir: seq<Entry>, cur: nat) {
    var f := Scan(Names(base, dir), base);
    && f.max == cur
    && (exists archive :: LogFile(f.min, archive) in dir)
    && forall e :: e in dir && e.LogFile? ==> f.min <= e.rev
  }

  lemma NamesContainBase(base: string, r: nat, archive: bool)
    ensures Contains(NameOf(base, LogFile(r, archive)), base)
  {
    var name := NameOf(base, LogFile(r, archive));
    assert OccursAt(name, base, 0);
  }

  lemma EntryParses(base: string, r: nat, archive: bool)
    requires GoodBase(base) && Readable(r)
    ensures Parse(NameOf(base, LogFile(r, archive))) == Revision(r, archive)
  {
    RFindInRange(base, '.');
    hide Parse, Decimal;
    if r == 0 {
      BaseNameReadsBack(base);
    } else {
      NumberedNamesReadBack(base, r);
    }
  }

  function Vouches(e: Entry): nat
    requires e.LogFile?
  {
    if e.archive then e.rev + 1 else e.rev
  }

  /** After the first k entries: the least revision among them and the newest they vouch for. */
  ghost predicate ScannedOk(dir: seq<Entry>, f: Found) {
    && (f.initialized <==> exists e :: e in dir && e.LogFile?)
    && (f.initialized ==> exists e :: e in dir && e.LogFile? && e.rev == f.min)
    && (forall e :: e in dir && e.LogFile? ==> f.min <= e.rev && Vouches(e) <= f.max)
    && (f.max == 0 || exists e :: e in dir && e.LogFile? && Vouches(e) == f.max)
  }

  lemma NoteKeepsScanned(dir: seq<Entry>, f: Found, e: Entry)
    requires ScannedOk(dir, f) && e.LogFile? && Readable(e.rev)
    ensures ScannedOk(dir + [e], Note(f, Revision(e.rev, e.archive)))
  {
    var g := Note(f, Revision(e.rev, e.archive));
    var all := dir + [e];
    assert e in all;
    assert forall d :: d in all <==> d in dir || d == e;
    if f.initialized {
      var d :| d in dir && d.LogFile? && d.rev == f.min;
      assert d in all;
    }
    if f.max != 0 {
      var d :| d in dir && d.LogFile? && Vouches(d) == f.max;
      assert d in all;
    }
  }

  lemma {:induction false} ScanIsComplete(base: string, dir: seq<Entry>)
    requires GoodBase(base)
    requires forall e :: e in dir ==> if e.Other? then !Contains(e.name, base) else Readable(e.rev)
    ensures ScannedOk(dir, Scan(Names(base, dir), base))
  {
    hide Parse, Contains, NameOf, GoodBase, Note;
    if dir != [] {
      var k := |dir| - 1;
      var front, e := dir[..k], dir[k];
      assert dir == front + [e];
      assert Names(base, dir)[..k] == Names(base, front);
      ScanIsComplete(base, front);
      var f := Scan(Names(base, front), base);
      assert forall d :: d in dir <==> d in front || d == e;
      if e.Other? {
        assert NameOf(base, e) == e.name by { OtherName(base, e); }
      } else {
        NamesContainBase(base, e.rev, e.archive);
        EntryParses(base, e.rev, e.archive);
        NoteKeepsScanned(front, f, e);
      }
    }
  }

  lemma OtherName(base: string, e: Entry)
    requires e.Other?
    ensures NameOf(base, e) == e.name
  {
  }

  /** Whatever files of a good base name a directory shows: the scan finds the least revision among
      them, and the greatest that one of them vouches for, a plain file for its own and an archive for
      the next. */
  lemma {:induction false} ScanFindsExtremes(base: string, dir: seq<Entry>)
    requires GoodBase(base) && exists e :: e in dir && e.LogFile?
    requires forall e :: e in dir ==> if e.Other? then !Contains(e.name, base) else Readable(e.rev)
    ensures var f := Scan(Names(base, dir), base);
      && (forall e :: e in dir && e.LogFile? ==> f.min <= e.rev && (if e.archive then e.rev + 1 else e.rev) <= f.max)
      && (exists e :: e in dir && e.LogFile? && e.rev == f.min)
      && (exists e :: e in dir && e.LogFile? && f.max == if e.archive then e.rev + 1 else e.rev)
  {
    ScanIsComplete(base, dir);
    hide GoodBase, Scan, Contains;
    var e :| e in dir && e.LogFile?;
    assert Scan(Names(base, dir), base).max == 0 ==> Vouches(e) == 0;
  }

  /** With a good base name every logger-produced directory is recovered exactly, in any
      listing order and with any mix of plain and archived files. */
  lemma ScanRecovers(base: string, dir: seq<Entry>, cur: nat)
    requires GoodBase(base) && LoggerDirectory(base, dir, cur)
    ensures Recovers(base, dir, cur)
  {
    ScanIsComplete(base, dir);
    hide GoodBase, Scan;
    var f := Scan(Names(base, dir), base);
    assert LogFile(cur, false) in dir && Vouches(LogFile(cur, false)) == cur;
    if f.max != 0 {
      var e :| e in dir && e.LogFile? && Vouches(e) == f.max;
    }
    var e :| e in dir && e.LogFile? && e.rev == f.min;
    assert LogFile(f.min, e.archive) in dir;
  }

  /** With any other base name some directory is not: revision 0 is skipped or misread. */
  lemma BadBaseMisleads(base: string) returns (dir: seq<Entry>, cur: nat)
    requires base != "" && !GoodBase(base)
    ensures LoggerDirectory(base, dir, cur) && !Recovers(base, dir, cur)
  {
    BaseNameReadsBack(base);
    NamesContainBase(base, 0, false);
    NamesContainBase(base, 1, false);
    NumberedNamesReadBack(base, 1);
    hide Parse, Contains, GoodBase, Decimal;
    var p := Parse(base);
    if p.Skipped? {
      dir, cur := [LogFile(0, false), LogFile(1, false)], 1;
      var names := Names(base, dir);
      assert names[..1] == [base] && [base][..0] == [];
      assert Scan([base], base) == Found(false, 0, 0);
      assert Scan(names, base) == Found(true, 1, 1);
      assert LogFile(0, false) in dir;
    } else {
      dir, cur := [LogFile(0, false)], 0;
      var names := Names(base, dir);
      assert names == [base] && [base][..0] == [];
      assert Scan(names, base) == Note(Found(false, 0, 0), p);
      assert p.rev != 0 || p.archive;
    }
  }
}
