/** The one-pass reader of the dpkg status file (control paragraphs as in section 5.1 of the
    Debian Policy Manual). */
module DpkgStatus {
  import opened Basics
  import opened Text

  datatype Package = Package(name: string, version: string, source: string)

  // ----- lines of a text -----

  function StripCr(s: string): string { if s != [] && s[|s| - 1] == '\r' then s[..|s| - 1] else s }

  /** Splits at line feeds, dropping a carriage return before each. */
  function Lines(s: string): seq<string>
    decreases |s|
  {
    if s == [] then []
    else
      var line := Before(s, '\n');
      BeforeShort(s, '\n');
      if |line| == |s| then [line] else [StripCr(line)] + Lines(s[|line| + 1..])
  }

  lemma {:induction false} BeforeShort(s: string, mark: char)
    ensures |Before(s, mark)| <= |s|
    ensures Before(s, mark) == s[..|Before(s, mark)|]
    ensures |Before(s, mark)| < |s| ==> s[|Before(s, mark)|] == mark
  {
    if s != [] && s[0] != mark { BeforeShort(s[1..], mark); }
  }

  // ----- fields -----

  predicate IsBlank(line: string) { Trim(line) == "" }

  function Value(line: string, field: string): Option<string> {
    if field <= line then Some(line[|field|..]) else None
  }

  /** The trailing run of non-space characters, trailing spaces aside. */
  function LastWord(s: string): string { WordAtEnd(TrimEnd(s)) }

  function WordAtEnd(s: string): string {
    if s == [] || IsSpace(s[|s| - 1]) then [] else WordAtEnd(s[..|s| - 1]) + [s[|s| - 1]]
  }

  predicate MarksInstalled(status: string) { LastWord(status) == "installed" }

  // ----- reading as the program does: one pass with three variables -----

  datatype Fields = Fields(name: Option<string>, version: Option<string>, installed: bool)

  const NoFields := Fields(None, None, false)

  function Emit(f: Fields): seq<Package> {
    if f.installed && f.name.Some? then [Package(f.name.value, if f.version.Some? then f.version.value else "", "dpkg")]
    else []
  }

  function Update(f: Fields, line: string): Fields {
    if Value(line, "Package:").Some? then f.(name := Some(Trim(Value(line, "Package:").value)))
    else if Value(line, "Version:").Some? then f.(version := Some(Trim(Value(line, "Version:").value)))
    else if Value(line, "Status:").Some? then f.(installed := MarksInstalled(Value(line, "Status:").value))
    else f
  }

  /** What the rest of the file yields, with these fields read of the current paragraph. */
  function Stream(f: Fields, rest: seq<string>): seq<Package>
    decreases |rest|
  {
    if rest == [] then Emit(f)
    else if IsBlank(rest[0]) then Emit(f) + Stream(NoFields, rest[1..])
    else Stream(Update(f, rest[0]), rest[1..])
  }

  /** Flushes the current paragraph and starts a new one. */
  method PushDpkg(out: seq<Package>, f: Fields) returns (out': seq<Package>, f': Fields)
    ensures out' == out + Emit(f) && f' == NoFields
  {
    out' := out;
    if f.installed && f.name.Some? {
      out' := out + [Package(f.name.value, if f.version.Some? then f.version.value else "", "dpkg")];
    }
    f' := NoFields;
  }

  method ParseDpkgStatus(contents: string) returns (out: seq<Package>)
    ensures out == Stream(NoFields, Lines(contents))
  {
    hide IsBlank, Lines, MarksInstalled;
    var lines := Lines(contents);
    var f := NoFields;
    out := [];
    ghost var whole := Stream(NoFields, lines);
    assert lines[0..] == lines && [] + whole == whole;
    for i := 0 to |lines|
      invariant whole == out + Stream(f, lines[i..])
    {
      var line := lines[i];
      assert lines[i..][0] == line && lines[i..][1..] == lines[i + 1..];
      if IsBlank(line) {
        assert out + (Emit(f) + Stream(NoFields, lines[i + 1..])) == (out + Emit(f)) + Stream(NoFields, lines[i + 1..]);
        out, f := PushDpkg(out, f);
      } else if "Package:" <= line {
        f := f.(name := Some(Trim(line[|"Package:"|..])));
      } else if "Version:" <= line {
        f := f.(version := Some(Trim(line[|"Version:"|..])));
      } else if "Status:" <= line {
        f := f.(installed := MarksInstalled(line[|"Status:"|..]));
      }
    }
    out, f := PushDpkg(out, f);
  }

  // ----- reading paragraph by paragraph -----

  /** The runs of lines between blank lines, in order. */
  function Paragraphs(lines: seq<string>): (r: seq<seq<string>>)
    ensures r != []
    decreases |lines|
  {
    if lines == [] then [[]]
    else
      var rest := Paragraphs(lines[1..]);
      if IsBlank(lines[0]) then [[]] + rest else [[lines[0]] + rest[0]] + rest[1..]
  }

  /** The value of the last line of `field` in a paragraph, where no earlier field name takes the line. */
  function LastValue(p: seq<string>, field: string): Option<string>
    decreases |p|
  {
    if p == [] then None
    else if Value(p[|p| - 1], field).Some? then Value(p[|p| - 1], field)
    else LastValue(p[..|p| - 1], field)
  }

  /** A paragraph read on its own: the last Package, Version and Status decide. */
  function ReadParagraph(p: seq<string>): seq<Package> {
    var name, version, status := LastValue(p, "Package:"), LastValue(p, "Version:"), LastValue(p, "Status:");
    if name.Some? && status.Some? && MarksInstalled(status.value)
    then [Package(Trim(name.value), if version.Some? then Trim(version.value) else "", "dpkg")]
    else []
  }

  function ReadAll(ps: seq<seq<string>>): seq<Package> {
    if ps == [] then [] else ReadParagraph(ps[0]) + ReadAll(ps[1..])
  }

  /** The three variables after the lines `p` of a paragraph. */
  function After(f: Fields, p: seq<string>): Fields
    decreases |p|
  {
    if p == [] then f else Update(After(f, p[..|p| - 1]), p[|p| - 1])
  }

  lemma {:induction false} AfterIsLast(p: seq<string>)
    ensures var f := After(NoFields, p);
            var name, version, status := LastValue(p, "Package:"), LastValue(p, "Version:"), LastValue(p, "Status:");
            && f.name == (if name.Some? then Some(Trim(name.value)) else None)
            && f.version == (if version.Some? then Some(Trim(version.value)) else None)
            && f.installed == (status.Some? && MarksInstalled(status.value))
    decreases |p|
  {
    if p != [] {
      AfterIsLast(p[..|p| - 1]);
      DistinctFields(p[|p| - 1]);
    }
  }

  lemma DistinctFields(line: string)
    ensures Value(line, "Package:").Some? ==> Value(line, "Version:").None? && Value(line, "Status:").None?
    ensures Value(line, "Version:").Some? ==> Value(line, "Status:").None?
  {
    if "Package:" <= line { assert line[0] == 'P'; }
    if "Version:" <= line { assert line[0] == 'V'; }
    if "Status:" <= line { assert line[0] == 'S'; }
  }

  lemma {:induction false} AfterFirst(f: Fields, line: string, p: seq<string>)
    ensures After(Update(f, line), p) == After(f, [line] + p)
    decreases |p|
  {
    if p == [] {
      assert [line] + p == [line] && [line][..0] == [];
      assert After(f, [line]) == Update(After(f, []), line);
    } else {
      assert ([line] + p)[..|p|] == [line] + p[..|p| - 1];
      AfterFirst(f, line, p[..|p| - 1]);
    }
  }

  lemma {:induction false} StreamByParagraph(f: Fields, lines: seq<string>)
    ensures var ps := Paragraphs(lines); Stream(f, lines) == Emit(After(f, ps[0])) + ReadAll(ps[1..])
    decreases |lines|
  {
    hide IsBlank, Update;
    if lines != [] {
      var rest := Paragraphs(lines[1..]);
      var ps := Paragraphs(lines);
      if IsBlank(lines[0]) {
        StreamByParagraph(NoFields, lines[1..]);
        ReadIsEmit(rest[0]);
        assert ps[1..] == rest;
      } else {
        StreamByParagraph(Update(f, lines[0]), lines[1..]);
        AfterFirst(f, lines[0], rest[0]);
        assert ps[1..] == rest[1..];
      }
    }
  }

  lemma ReadIsEmit(p: seq<string>)
    ensures ReadParagraph(p) == Emit(After(NoFields, p))
  {
    hide MarksInstalled;
    AfterIsLast(p);
  }

  /** The one-pass reader yields what reading each blank-line paragraph alone yields, for every text. */
  lemma OnePassIsPerParagraph(contents: string)
    ensures Stream(NoFields, Lines(contents)) == ReadAll(Paragraphs(Lines(contents)))
  {
    hide Lines, ReadParagraph, Stream;
    var ps := Paragraphs(Lines(contents));
    StreamByParagraph(NoFields, Lines(contents));
    ReadIsEmit(ps[0]);
  }

  /** A blank line separates completely. */
  lemma {:induction false} BlankSeparates(f: Fields, a: seq<string>, blank: string, b: seq<string>)
    requires IsBlank(blank)
    ensures Stream(f, a + [blank] + b) == Stream(f, a) + Stream(NoFields, b)
    decreases |a|
  {
    hide IsBlank, Update;
    if a == [] {
      assert a + [blank] + b == [blank] + b;
      assert ([blank] + b)[1..] == b;
    } else {
      assert (a + [blank] + b)[1..] == a[1..] + [blank] + b;
      BlankSeparates(if IsBlank(a[0]) then NoFields else Update(f, a[0]), a[1..], blank, b);
    }
  }

  // ----- printing and reading back -----

  const InstalledLine := "Status: install ok installed"

  function PrintOne(p: Package): seq<string> {
    ["Package: " + p.name, InstalledLine, "Version: " + p.version, ""]
  }

  function PrintAll(ps: seq<Package>): seq<string> {
    if ps == [] then [] else PrintOne(ps[0]) + PrintAll(ps[1..])
  }

  /** Every line followed by a line feed. */
  function Join(lines: seq<string>): string {
    if lines == [] then [] else lines[0] + "\n" + Join(lines[1..])
  }

  /** Trimmed, on one line. */
  ghost predicate Plain(s: string) { Trim(s) == s && '\n' !in s }

  ghost predicate Printable(p: Package) { Plain(p.name) && Plain(p.version) && p.source == "dpkg" }

  ghost predicate CleanLine(s: string) { '\n' !in s && (s == [] || s[|s| - 1] != '\r') }

  lemma {:induction false} BeforeClean(line: string, tail: string)
    requires '\n' !in line
    ensures Before(line + "\n" + tail, '\n') == line
  {
    if line == [] {
      assert line + "\n" + tail == "\n" + tail;
    } else {
      assert (line + "\n" + tail)[1..] == line[1..] + "\n" + tail;
      BeforeClean(line[1..], tail);
    }
  }

  lemma {:induction false} LinesOfJoin(lines: seq<string>)
    requires forall l :: l in lines ==> CleanLine(l)
    ensures Lines(Join(lines)) == lines
  {
    if lines != [] {
      var rest := Join(lines[1..]);
      var s := lines[0] + "\n" + rest;
      assert CleanLine(lines[0]);
      BeforeClean(lines[0], rest);
      assert s[|lines[0]| + 1..] == rest;
      LinesOfJoin(lines[1..]);
    }
  }

  lemma CrStripped(line: string)
    ensures StripCr(line + "\r") == line
  {
    assert (line + "\r")[..|line|] == line;
  }

  /** A line with its ending, a line feed or a carriage return and a line feed. */
  function Ended(line: string, cr: bool): string { if cr then line + "\r" + "\n" else line + "\n" }

  lemma FirstEnded(line: string, cr: bool, rest: string)
    requires CleanLine(line)
    ensures Lines(Ended(line, cr) + rest) == [line] + Lines(rest)
  {
    var full := if cr then line + "\r" else line;
    var s := full + "\n" + rest;
    assert Ended(line, cr) + rest == s;
    BeforeClean(full, rest);
    CrStripped(line);
    assert StripCr(full) == line;
    hide StripCr, Before;
    assert s[|full| + 1..] == rest;
  }

  function JoinEnded(lines: seq<string>, crs: seq<bool>): string
    requires |crs| == |lines|
  {
    if lines == [] then [] else Ended(lines[0], crs[0]) + JoinEnded(lines[1..], crs[1..])
  }

  /** Both endings, in any mixture, end a line and are no part of it. */
  lemma {:induction false} LinesOfEnded(lines: seq<string>, crs: seq<bool>)
    requires |crs| == |lines| && forall l :: l in lines ==> CleanLine(l)
    ensures Lines(JoinEnded(lines, crs)) == lines
  {
    if lines != [] {
      hide Ended, Lines, CleanLine;
      FirstEnded(lines[0], crs[0], JoinEnded(lines[1..], crs[1..]));
      LinesOfEnded(lines[1..], crs[1..]);
    } else {
      assert Lines([]) == [];
    }
  }

  /** What is not ended any more is the last line as it stands. */
  lemma LastLineKept(line: string)
    requires line != [] && '\n' !in line
    ensures Lines(line) == [line]
  {
    BeforeAll(line);
  }

  lemma {:induction false} BeforeAll(line: string)
    requires '\n' !in line
    ensures Before(line, '\n') == line
  {
    if line != [] { BeforeAll(line[1..]); }
  }

  /** Paragraphs end at lines of white space alone, the empty one among them. */
  lemma BlankExactly(line: string)
    ensures IsBlank(line) <==> AllSpace(line)
  {
    TrimsAway(line);
  }

  lemma {:induction false} TrimEndPlain(s: string)
    ensures TrimEnd(s) == [] || !IsSpace(TrimEnd(s)[|TrimEnd(s)| - 1])
    ensures TrimEnd(s) <= s
    decreases |s|
  {
    if s != [] && IsSpace(s[|s| - 1]) { TrimEndPlain(s[..|s| - 1]); }
  }

  lemma {:induction false} TrimStartShort(s: string)
    ensures |TrimStart(s)| <= |s|
    ensures s != [] && IsSpace(s[0]) ==> |TrimStart(s)| < |s|
  {
    if s != [] && IsSpace(s[0]) { TrimStartShort(s[1..]); }
  }

  lemma TrimmedEnds(s: string)
    requires Trim(s) == s
    ensures s != [] ==> !IsSpace(s[0]) && !IsSpace(s[|s| - 1])
  {
    TrimStartShort(s);
    TrimEndPlain(TrimStart(s));
  }

  lemma ValueAfterSpace(s: string)
    requires Trim(s) == s
    ensures Trim(" " + s) == s
  {
    TrimmedEnds(s);
    assert (" " + s)[1..] == s;
  }

  lemma {:induction false} WordBehindSpace(head: string, w: string)
    requires w != [] && forall c :: c in w ==> !IsSpace(c)
    ensures LastWord(head + " " + w) == w
    decreases |w|
  {
    var s := head + " " + w;
    assert s[|s| - 1] == w[|w| - 1] && !IsSpace(w[|w| - 1]);
    EndWord(head, w);
  }

  lemma {:induction false} EndWord(head: string, w: string)
    requires forall c :: c in w ==> !IsSpace(c)
    ensures WordAtEnd(head + " " + w) == w
    decreases |w|
  {
    var s := head + " " + w;
    if w == [] {
      assert s[|s| - 1] == ' ';
    } else {
      assert s[|s| - 1] == w[|w| - 1] && w[|w| - 1] in w;
      assert s[..|s| - 1] == head + " " + w[..|w| - 1];
      EndWord(head, w[..|w| - 1]);
      assert w == w[..|w| - 1] + [w[|w| - 1]];
    }
  }

  lemma InstalledStatus()
    ensures MarksInstalled(" install ok installed")
  {
    assert " install ok installed" == " install ok" + " " + "installed";
    WordBehindSpace(" install ok", "installed");
  }

  lemma NotBlank(line: string)
    requires line != [] && !IsSpace(line[0])
    ensures !IsBlank(line)
  {
    TrimEndKeepsHead(line);
  }

  lemma {:induction false} TrimEndKeepsHead(s: string)
    requires s != [] && !IsSpace(s[0])
    ensures TrimEnd(s) != []
    decreases |s|
  {
    if IsSpace(s[|s| - 1]) { TrimEndKeepsHead(s[..|s| - 1]); }
  }

  lemma PrintedLine(field: string, s: string)
    requires field != [] && !IsSpace(field[0]) && Trim(s) == s
    ensures var line := field + " " + s;
            !IsBlank(line) && Value(line, field).Some? && Trim(Value(line, field).value) == s
  {
    var line := field + " " + s;
    NotBlank(line);
    ValueAfterSpace(s);
    assert line[|field|..] == " " + s;
  }

  lemma PrintedStatus()
    ensures !IsBlank(InstalledLine) && Value(InstalledLine, "Status:").Some?
    ensures MarksInstalled(Value(InstalledLine, "Status:").value)
  {
    hide IsBlank, MarksInstalled;
    NotBlank(InstalledLine);
    InstalledStatus();
    assert InstalledLine == "Status:" + " install ok installed";
    assert InstalledLine[|"Status:"|..] == " install ok installed";
  }

  /** What the three field lines of a printed paragraph leave in the variables. */
  lemma PrintedFields(p: Package)
    requires Printable(p)
    ensures var l1, l3 := "Package: " + p.name, "Version: " + p.version;
            && !IsBlank(l1) && !IsBlank(InstalledLine) && !IsBlank(l3)
            && Update(NoFields, l1) == Fields(Some(p.name), None, false)
            && Update(Fields(Some(p.name), None, false), InstalledLine) == Fields(Some(p.name), None, true)
            && Update(Fields(Some(p.name), None, true), l3) == Fields(Some(p.name), Some(p.version), true)
  {
    var l1, l3 := "Package: " + p.name, "Version: " + p.version;
    assert l1 == "Package:" + " " + p.name && l3 == "Version:" + " " + p.version;
    PrintedLine("Package:", p.name);
    PrintedLine("Version:", p.version);
    PrintedStatus();
    DistinctFields(l1);
    DistinctFields(l3);
    DistinctFields(InstalledLine);
    hide IsBlank, Value, Trim, MarksInstalled;
  }

  /** One printed paragraph is read back as its package. */
  lemma ReadOnePrinted(p: Package, rest: seq<string>)
    requires Printable(p)
    ensures Stream(NoFields, PrintOne(p) + rest) == [p] + Stream(NoFields, rest)
  {
    hide IsBlank, Update, Stream;
    PrintedFields(p);
    var l1, l3 := "Package: " + p.name, "Version: " + p.version;
    var s := PrintOne(p) + rest;
    assert s == [l1] + ([InstalledLine] + ([l3] + ([""] + rest)));
    var f := Fields(Some(p.name), None, false);
    StreamLine(NoFields, l1, [InstalledLine] + ([l3] + ([""] + rest)));
    StreamLine(f, InstalledLine, [l3] + ([""] + rest));
    StreamLine(f.(installed := true), l3, [""] + rest);
    StreamBlank(Fields(Some(p.name), Some(p.version), true), rest);
  }

  lemma StreamLine(f: Fields, line: string, rest: seq<string>)
    requires !IsBlank(line)
    ensures Stream(f, [line] + rest) == Stream(Update(f, line), rest)
  {
    assert ([line] + rest)[1..] == rest;
  }

  lemma StreamBlank(f: Fields, rest: seq<string>)
    ensures Stream(f, [""] + rest) == Emit(f) + Stream(NoFields, rest)
  {
    assert IsBlank("");
    assert ([""] + rest)[1..] == rest;
  }

  lemma {:induction false} ReadAllPrinted(ps: seq<Package>)
    requires forall p :: p in ps ==> Printable(p)
    ensures Stream(NoFields, PrintAll(ps)) == ps
  {
    hide Printable;
    if ps != [] {
      ReadAllPrinted(ps[1..]);
      ReadOnePrinted(ps[0], PrintAll(ps[1..]));
      assert ps == [ps[0]] + ps[1..];
    }
  }

  lemma FieldClean(field: string, value: string)
    requires Plain(value) && '\n' !in field && field != [] && field[|field| - 1] != '\r'
    ensures CleanLine(field + value)
  {
    TrimmedEnds(value);
    hide Trim;
    assert '\r' as int == 13;
  }

  lemma OneClean(p: Package, l: string)
    requires Printable(p) && l in PrintOne(p)
    ensures CleanLine(l)
  {
    hide Plain;
    FieldClean("Package: ", p.name);
    FieldClean("Version: ", p.version);
    assert CleanLine(InstalledLine) && CleanLine("");
  }

  lemma {:induction false} PrintedClean(ps: seq<Package>)
    requires forall p :: p in ps ==> Printable(p)
    ensures forall l :: l in PrintAll(ps) ==> CleanLine(l)
  {
    if ps != [] {
      hide Printable, PrintOne, CleanLine;
      PrintedClean(ps[1..]);
      assert ps[0] in ps;
      forall l | l in PrintOne(ps[0]) ensures CleanLine(l) { OneClean(ps[0], l); }
    }
  }

  /** Printing any list of trimmed packages as installed paragraphs and reading the text back returns the list. */
  lemma RoundTrip(ps: seq<Package>)
    requires forall p :: p in ps ==> Printable(p)
    ensures Stream(NoFields, Lines(Join(PrintAll(ps)))) == ps
  {
    hide Printable, Stream, Lines, PrintAll;
    PrintedClean(ps);
    LinesOfJoin(PrintAll(ps));
    ReadAllPrinted(ps);
  }

  // ----- which paragraphs yield a package -----

  /** `word` is the last word of `s`. */
  ghost predicate EndsInWord(s: string, word: string) {
    exists a: string, b: string :: s == a + word + b && AllSpace(b) && (a == [] || IsSpace(a[|a| - 1]))
  }

  lemma {:induction false} TrimEndSplits(s: string)
    ensures exists b :: s == TrimEnd(s) + b && AllSpace(b)
    decreases |s|
  {
    if s != [] && IsSpace(s[|s| - 1]) {
      var front := s[..|s| - 1];
      TrimEndSplits(front);
      var b :| front == TrimEnd(front) + b && AllSpace(b);
      assert s == TrimEnd(s) + (b + [s[|s| - 1]]);
      assert AllSpace(b + [s[|s| - 1]]);
    } else {
      assert s == TrimEnd(s) + [];
    }
  }

  lemma {:induction false} WordSplits(s: string)
    ensures var n := |WordAtEnd(s)|;
            n <= |s| && s[|s| - n..] == WordAtEnd(s) && (n == |s| || IsSpace(s[|s| - n - 1]))
    decreases |s|
  {
    hide IsSpace;
    if s != [] && !IsSpace(s[|s| - 1]) {
      var front := s[..|s| - 1];
      WordSplits(front);
      assert s == front + [s[|s| - 1]];
    }
  }

  lemma {:induction false} TrimEndDrops(s: string, b: string)
    requires AllSpace(b)
    ensures TrimEnd(s + b) == TrimEnd(s)
    decreases |b|
  {
    if b == [] {
      assert s + b == s;
    } else {
      assert (s + b)[..|s + b| - 1] == s + b[..|b| - 1];
      TrimEndDrops(s, b[..|b| - 1]);
    }
  }

  lemma {:induction false} WordTakes(a: string, w: string)
    requires (a == [] || IsSpace(a[|a| - 1])) && forall i :: 0 <= i < |w| ==> !IsSpace(w[i])
    ensures WordAtEnd(a + w) == w
    decreases |w|
  {
    if w == [] {
      assert a + w == a;
    } else {
      assert (a + w)[..|a + w| - 1] == a + w[..|w| - 1];
      WordTakes(a, w[..|w| - 1]);
    }
  }

  lemma LastWordStands(s: string)
    ensures EndsInWord(s, LastWord(s))
  {
    hide IsSpace, TrimEnd, WordAtEnd, AllSpace;
    var t := TrimEnd(s);
    TrimEndSplits(s);
    WordSplits(t);
    var b :| s == t + b && AllSpace(b);
    var a := t[..|t| - |WordAtEnd(t)|];
    assert t == a + WordAtEnd(t);
    assert s == a + LastWord(s) + b;
  }

  lemma EndsInLastWord(s: string, word: string)
    requires word != [] && (forall i :: 0 <= i < |word| ==> !IsSpace(word[i])) && EndsInWord(s, word)
    ensures LastWord(s) == word
  {
    hide IsSpace, TrimEnd, WordAtEnd, AllSpace;
    var a: string, b: string :| s == a + word + b && AllSpace(b) && (a == [] || IsSpace(a[|a| - 1]));
    EndsPlain(a, word);
    TrimEndDrops(a + word, b);
    WordTakes(a, word);
  }

  lemma MarksInstalledExactly(status: string)
    ensures MarksInstalled(status) <==> EndsInWord(status, "installed")
  {
    InstalledIsWord();
    LastWordStands(status);
    hide IsSpace, LastWord, EndsInWord;
    if EndsInWord(status, "installed") { EndsInLastWord(status, "installed"); }
  }

  lemma InstalledIsWord()
    ensures var w := "installed"; forall i :: 0 <= i < |w| ==> !IsSpace(w[i])
  {
  }

  lemma EndsPlain(a: string, w: string)
    requires w != [] && !IsSpace(w[|w| - 1])
    ensures TrimEnd(a + w) == a + w
  {
    assert (a + w)[|a + w| - 1] == w[|w| - 1];
  }

  /** Line `n` is the last of the paragraph with this field, and `v` what follows the name. */
  ghost predicate LastLine(p: seq<string>, field: string, n: int, v: string) {
    && 0 <= n < |p| && p[n] == field + v
    && forall m :: n < m < |p| ==> !(field <= p[m])
  }

  lemma {:induction false} LastValueExactly(p: seq<string>, field: string)
    ensures LastValue(p, field).Some? ==> exists n :: LastLine(p, field, n, LastValue(p, field).value)
    ensures LastValue(p, field).None? ==> forall n :: 0 <= n < |p| ==> !(field <= p[n])
    decreases |p|
  {
    if p != [] {
      var front, last := p[..|p| - 1], p[|p| - 1];
      LastValueExactly(front, field);
      if field <= last {
        assert LastValue(p, field) == Some(last[|field|..]);
        assert last == field + last[|field|..];
        assert LastLine(p, field, |p| - 1, last[|field|..]);
      } else if LastValue(front, field).Some? {
        var v := LastValue(front, field).value;
        var n :| LastLine(front, field, n, v);
        assert LastValue(p, field) == LastValue(front, field) && p[n] == front[n];
        assert LastLine(p, field, n, LastValue(p, field).value);
      }
    }
  }

  /**
   A paragraph yields a package exactly when it has a Package line and the last word of its
   last Status line is "installed": the trimmed last name, and the trimmed last version or
   none.
   */
  lemma ListedExactly(p: seq<string>)
    ensures ReadParagraph(p) != [] <==>
            (exists n, v :: LastLine(p, "Package:", n, v)) &&
            (exists n, v :: LastLine(p, "Status:", n, v) && EndsInWord(v, "installed"))
    ensures |ReadParagraph(p)| <= 1
    ensures ReadParagraph(p) != [] ==>
              var pkg := ReadParagraph(p)[0];
              && pkg.source == "dpkg"
              && (exists n, v :: LastLine(p, "Package:", n, v) && pkg.name == Trim(v))
              && (|| (exists n, v :: LastLine(p, "Version:", n, v) && pkg.version == Trim(v))
                  || ((forall n :: 0 <= n < |p| ==> !("Version:" <= p[n])) && pkg.version == ""))
  {
    hide LastValue, MarksInstalled, EndsInWord, Trim;
    LastValueExactly(p, "Package:");
    LastValueExactly(p, "Version:");
    LastValueExactly(p, "Status:");
    var name, status := LastValue(p, "Package:"), LastValue(p, "Status:");
    if status.Some? {
      MarksInstalledExactly(status.value);
      var n :| LastLine(p, "Status:", n, status.value);
      forall m, v | LastLine(p, "Status:", m, v) ensures v == status.value { OneLastLine(p, "Status:", n, status.value, m, v); }
    } else {
      forall m, v ensures !LastLine(p, "Status:", m, v) { NoLastLine(p, "Status:", m, v); }
    }
    if name.None? {
      forall m, v ensures !LastLine(p, "Package:", m, v) { NoLastLine(p, "Package:", m, v); }
    }
  }

  lemma NoLastLine(p: seq<string>, field: string, m: int, v: string)
    requires forall n :: 0 <= n < |p| ==> !(field <= p[n])
    ensures !LastLine(p, field, m, v)
  {
    assert field <= field + v;
  }

  lemma OneLastLine(p: seq<string>, field: string, n: int, v: string, m: int, u: string)
    requires LastLine(p, field, n, v) && LastLine(p, field, m, u)
    ensures n == m && u == v
  {
    assert field <= field + v && field <= field + u;
    assert (field + v)[|field|..] == v && (field + u)[|field|..] == u;
  }
}
