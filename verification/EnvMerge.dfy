/** Writing issued tokens into an operator's env file (fetch_matrix_tokens.py). */
module EnvMerge {
  import opened Common
  import opened Text
  import Sorting

  datatype Update = Update(name: string, value: string)

  /** The characters str.splitlines() breaks at. */
  predicate IsBreak(c: char) {
    c in {'\n', '\r', '\U{0B}', '\U{0C}', '\U{1C}', '\U{1D}', '\U{1E}', '\U{85}', '\U{2028}', '\U{2029}'}
  }

  function FirstLine(s: string): (line: string)
    ensures line <= s
  {
    if s == [] || IsBreak(s[0]) then [] else [s[0]] + FirstLine(s[1..])
  }

  /** What follows a line: its break, two characters wide for a carriage return and line feed. */
  function SkipBreak(s: string): (rest: string)
    ensures s != [] ==> |rest| < |s|
  {
    if s == [] then []
    else if |s| >= 2 && s[0] == '\r' && s[1] == '\n' then s[2..]
    else s[1..]
  }

  function SplitLines(s: string): seq<string>
    decreases |s|
  {
    if s == [] then [] else
      var line := FirstLine(s);
      [line] + if |line| == |s| then [] else SplitLines(SkipBreak(s[|line|..]))
  }

  function JoinLines(lines: seq<string>): string {
    if lines == [] then [] else if |lines| == 1 then lines[0]
    else lines[0] + "\n" + JoinLines(lines[1..])
  }

  function NameOf(line: string): string {
    Strip(BeforeFirst(line, '='))
  }

  function Names(us: seq<Update>): seq<string> {
    seq(|us|, i requires 0 <= i < |us| => us[i].name)
  }

  function Kept(lines: seq<string>, names: seq<string>): seq<string> {
    if lines == [] then [] else
      var last := lines[|lines| - 1];
      if NameOf(last) in names then Kept(lines[..|lines| - 1], names)
      else Kept(lines[..|lines| - 1], names) + [last]
  }

  predicate Blank(line: string) {
    Strip(line) == []
  }

  function Trimmed(lines: seq<string>): seq<string> {
    if lines != [] && Blank(lines[|lines| - 1]) then Trimmed(lines[..|lines| - 1]) else lines
  }

  function ValueOf(us: seq<Update>, name: string): string {
    if us == [] then [] else if us[0].name == name then us[0].value else ValueOf(us[1..], name)
  }

  function Assign(us: seq<Update>, name: string): string {
    name + "=" + ValueOf(us, name)
  }

  /** One line per update, by name. */
  function Assignments(us: seq<Update>): seq<string> {
    var names := Sorting.Sorted(Names(us));
    seq(|names|, i requires 0 <= i < |names| => Assign(us, names[i]))
  }

  function OldLines(file: Option<string>): seq<string> {
    if file.Some? then SplitLines(file.value) else []
  }

  function MergedLines(file: Option<string>, us: seq<Update>): seq<string> {
    Trimmed(Kept(OldLines(file), Names(us))) + Assignments(us)
  }

  function Merged(file: Option<string>, us: seq<Update>): string {
    JoinLines(MergedLines(file, us)) + "\n"
  }

  method MergeEnv(file: Option<string>, us: seq<Update>) returns (written: string)
    ensures written == Merged(file, us)
  {
    var kept: seq<string> := [];
    if file.Some? {
      var lines := SplitLines(file.value);
      for i := 0 to |lines|
        invariant kept == Kept(lines[..i], Names(us))
      {
        assert lines[..i + 1][..i] == lines[..i];
        if NameOf(lines[i]) in Names(us) {
          continue;
        }
        kept := kept + [lines[i]];
      }
      assert lines[..|lines|] == lines;
    }
    ghost var before := kept;
    while kept != [] && Blank(kept[|kept| - 1])
      invariant Trimmed(kept) == Trimmed(before)
    {
      kept := kept[..|kept| - 1];
    }
    written := JoinLines(kept + Assignments(us)) + "\n";
  }

  // --- What a line defines -------------------------------------------------------------------

  /** The name a line defines stands before its first equals sign, white space aside. */
  lemma NameBeforeEquals(before: string, name: string, after: string, value: string)
    requires AllSpace(before) && AllSpace(after) && Bare(name) && '=' !in name
    ensures NameOf(before + name + after + ['='] + value) == name
  {
    var left := before + name + after;
    assert '=' !in left by {
      assert !IsSpace('=');
    }
    BeforeFirstOf(left, '=', value);
    StripOf(before, name, after);
  }

  /** A line without one defines all its text, white space aside. */
  lemma {:induction false} NameWithoutEquals(line: string)
    requires '=' !in line
    ensures BeforeFirst(line, '=') == line && NameOf(line) == Strip(line)
  {
    if line != [] {
      NameWithoutEquals(line[1..]);
      assert line == [line[0]] + line[1..];
    }
  }

  // --- Where lines end ------------------------------------------------------------------------

  /** A line ends at its break, and a carriage return takes a line feed behind it along. */
  lemma LinesEnd(line: string, c: char, rest: string)
    requires OneLine(line) && IsBreak(c)
    ensures SplitLines(line + ([c] + rest))
         == [line] + SplitLines(if c == '\r' && rest != [] && rest[0] == '\n' then rest[1..] else rest)
  {
    var tail := [c] + rest;
    FirstLineOf(line, tail);
    assert (line + tail)[|line|..] == tail;
    assert tail[1..] == rest;
    if rest != [] {
      assert tail[2..] == rest[1..];
    }
  }

  /** Without a break at its end the last line is a line all the same. */
  lemma LastLineEnds(line: string)
    requires OneLine(line) && line != []
    ensures SplitLines(line) == [line]
  {
    FirstLineOf(line, []);
    assert line + [] == line;
  }

  // --- Well-formed updates ----------------------------------------------------------------

  predicate OneLine(s: string) {
    forall c | c in s :: !IsBreak(c)
  }

  /** A dictionary of variables: distinct names that a line can carry, values on one line. */
  ghost predicate WellFormed(us: seq<Update>) {
    && Distinct(Names(us))
    && forall u | u in us ::
         u.name != [] && '=' !in u.name && OneLine(u.name) && Strip(u.name) == u.name && OneLine(u.value)
  }

  // --- Lines survive being written and read -------------------------------------------------

  lemma {:induction false} FirstLineOf(line: string, rest: string)
    requires OneLine(line) && (rest == [] || IsBreak(rest[0]))
    ensures FirstLine(line + rest) == line
  {
    if line != [] {
      assert (line + rest)[1..] == line[1..] + rest;
      assert line[0] in line;
      FirstLineOf(line[1..], rest);
    }
  }

  lemma SplitOne(line: string, tail: string)
    requires OneLine(line)
    ensures SplitLines(line + ("\n" + tail)) == [line] + SplitLines(tail)
  {
    var rest := "\n" + tail;
    var s := line + rest;
    FirstLineOf(line, rest);
    assert s[|line|..] == rest && rest[0] == '\n' && rest[1..] == tail;
  }

  lemma {:induction false} SplitJoined(lines: seq<string>)
    requires lines != [] && forall line | line in lines :: OneLine(line)
    ensures SplitLines(JoinLines(lines) + "\n") == lines
  {
    assert lines[0] in lines;
    if |lines| == 1 {
      SplitOne(lines[0], "");
      assert "\n" + "" == "\n" && lines == [lines[0]];
    } else {
      var tail := JoinLines(lines[1..]) + "\n";
      assert JoinLines(lines) + "\n" == lines[0] + ("\n" + tail);
      SplitOne(lines[0], tail);
      SplitJoined(lines[1..]);
      assert lines == [lines[0]] + lines[1..];
    }
  }

  lemma {:induction false} FirstLineIsOne(s: string)
    ensures OneLine(FirstLine(s))
  {
    if s != [] && !IsBreak(s[0]) {
      FirstLineIsOne(s[1..]);
    }
  }

  lemma {:induction false} SplitGivesLines(s: string)
    ensures forall line | line in SplitLines(s) :: OneLine(line)
    decreases |s|
  {
    if s != [] {
      var line := FirstLine(s);
      FirstLineIsOne(s);
      if |line| < |s| {
        SplitGivesLines(SkipBreak(s[|line|..]));
      }
    }
  }

  lemma {:induction false} KeptHas(lines: seq<string>, names: seq<string>, line: string)
    ensures line in Kept(lines, names) <==> line in lines && NameOf(line) !in names
  {
    if lines != [] {
      KeptHas(lines[..|lines| - 1], names, line);
      assert lines == lines[..|lines| - 1] + [lines[|lines| - 1]];
    }
  }

  lemma {:induction false} TrimmedPrefix(lines: seq<string>)
    ensures Trimmed(lines) <= lines
    ensures forall i | |Trimmed(lines)| <= i < |lines| :: Blank(lines[i])
    ensures Trimmed(lines) != [] ==> !Blank(Trimmed(lines)[|Trimmed(lines)| - 1])
  {
    if lines != [] && Blank(lines[|lines| - 1]) {
      TrimmedPrefix(lines[..|lines| - 1]);
    }
  }

  lemma {:induction false} ValueFound(us: seq<Update>, u: Update)
    requires Distinct(Names(us)) && u in us
    ensures ValueOf(us, u.name) == u.value
  {
    if us[0] != u {
      assert u in us[1..];
      var i :| 0 <= i < |us| && us[i] == u;
      assert Names(us)[0] != Names(us)[i];
      assert Names(us[1..]) == Names(us)[1..];
      ValueFound(us[1..], u);
    }
  }

  lemma SortedNames(us: seq<Update>, name: string)
    ensures name in Sorting.Sorted(Names(us)) <==> name in Names(us)
  {
    Sorting.SortedKeeps(Names(us));
    assert name in Sorting.Sorted(Names(us)) <==> name in multiset(Sorting.Sorted(Names(us)));
    assert name in Names(us) <==> name in multiset(Names(us));
  }

  /** The line written for an update carries its name and its value and nothing else. */
  lemma AssignmentReads(us: seq<Update>, name: string)
    requires WellFormed(us) && name in Names(us)
    ensures NameOf(Assign(us, name)) == name && OneLine(Assign(us, name)) && !Blank(Assign(us, name))
  {
    var i :| 0 <= i < |us| && Names(us)[i] == name;
    var u := us[i];
    ValueFound(us, u);
    BeforeFirstOf(name, '=', u.value);
    assert Assign(us, name) == name + ['='] + u.value;
    HasEquals(Assign(us, name));
  }

  /** A line with an equals sign is not blank. */
  lemma HasEquals(line: string)
    requires '=' in line
    ensures !Blank(line)
  {
    LStripKeeps(line);
    RStripKeeps(LStrip(line));
  }

  lemma {:induction false} LStripKeeps(s: string)
    requires '=' in s
    ensures '=' in LStrip(s)
  {
    if IsSpace(s[0]) {
      assert s == [s[0]] + s[1..];
      LStripKeeps(s[1..]);
    }
  }

  lemma {:induction false} RStripKeeps(s: string)
    requires '=' in s
    ensures '=' in RStrip(s)
  {
    if IsSpace(s[|s| - 1]) {
      assert s == s[..|s| - 1] + [s[|s| - 1]];
      RStripKeeps(s[..|s| - 1]);
    }
  }

  lemma AssignmentsAre(us: seq<Update>, line: string)
    requires WellFormed(us)
    ensures line in Assignments(us) <==> NameOf(line) in Names(us) && line == Assign(us, NameOf(line))
  {
    var names := Sorting.Sorted(Names(us));
    if line in Assignments(us) {
      var i :| 0 <= i < |names| && Assign(us, names[i]) == line;
      SortedNames(us, names[i]);
      AssignmentReads(us, names[i]);
    }
    if NameOf(line) in Names(us) && line == Assign(us, NameOf(line)) {
      SortedNames(us, NameOf(line));
      var i :| 0 <= i < |names| && names[i] == NameOf(line);
      assert Assignments(us)[i] == line;
    }
  }

  /** What the next reader sees: the merged lines, or one blank line when there are none. */
  lemma WrittenLines(file: Option<string>, us: seq<Update>)
    requires WellFormed(us)
    ensures var lines := MergedLines(file, us);
            SplitLines(Merged(file, us)) == if lines == [] then [""] else lines
  {
    var lines, kept := MergedLines(file, us), Kept(OldLines(file), Names(us));
    if lines != [] {
      if file.Some? {
        SplitGivesLines(file.value);
      }
      TrimmedPrefix(kept);
      forall line | line in lines ensures OneLine(line) {
        if line in Trimmed(kept) {
          assert line in kept;
          KeptHas(OldLines(file), Names(us), line);
        } else {
          AssignmentsAre(us, line);
          AssignmentReads(us, NameOf(line));
        }
      }
      SplitJoined(lines);
    } else {
      assert Merged(file, us) == "\n";
      assert SkipBreak("\n") == [];
    }
  }

  // --- The contract of the merge ------------------------------------------------------------

  /** Each updated name is defined once, by its new value. */
  lemma UpdatesDefineOnce(file: Option<string>, us: seq<Update>, u: Update)
    requires WellFormed(us) && u in us
    ensures forall line | line in SplitLines(Merged(file, us)) && NameOf(line) == u.name ::
              line == u.name + "=" + u.value
    ensures exists i :: 0 <= i < |SplitLines(Merged(file, us))|
              && SplitLines(Merged(file, us))[i] == u.name + "=" + u.value
              && forall j | 0 <= j < |SplitLines(Merged(file, us))| && j != i ::
                   NameOf(SplitLines(Merged(file, us))[j]) != u.name
  {
    hide NameOf, SplitLines, Merged, MergedLines, WellFormed;
    WrittenLines(file, us);
    var i := DefinedAt(file, us, u);
    var lines := SplitLines(Merged(file, us));
    assert lines == MergedLines(file, us);
    assert lines[i] == u.name + "=" + u.value;
  }

  /** So an old definition of an updated name is gone, however it was spaced: a line that
      defines the name is the new one. */
  lemma OldDefinitionGoes(file: Option<string>, us: seq<Update>, u: Update,
                          before: string, after: string, earlier: string)
    requires WellFormed(us) && u in us && AllSpace(before) && AllSpace(after)
    requires before + u.name + after + ['='] + earlier in SplitLines(Merged(file, us))
    ensures before + u.name + after + ['='] + earlier == u.name + "=" + u.value
  {
    StripIsBare(u.name);
    NameBeforeEquals(before, u.name, after, earlier);
    UpdatesDefineOnce(file, us, u);
  }

  /** What is written: the lines kept, less blank ones at the end, and then one assignment
      for each update, in ascending order of names. */
  lemma WrittenInOrder(file: Option<string>, us: seq<Update>) returns (names: seq<string>)
    requires WellFormed(us)
    ensures MergedLines(file, us) == Trimmed(Kept(OldLines(file), Names(us))) + Assignments(us)
    ensures Sorting.InOrder(names) && multiset(names) == multiset(Names(us))
    ensures |Assignments(us)| == |names| == |us|
    ensures forall i | 0 <= i < |names| ::
              exists u :: u in us && u.name == names[i] && Assignments(us)[i] == u.name + "=" + u.value
  {
    names := Sorting.Sorted(Names(us));
    Sorting.SortedKeeps(Names(us));
    SameLength(names, Names(us));
    forall i | 0 <= i < |names|
      ensures exists u :: u in us && u.name == names[i] && Assignments(us)[i] == u.name + "=" + u.value
    {
      SortedNames(us, names[i]);
      var k :| 0 <= k < |us| && Names(us)[k] == names[i];
      ValueFound(us, us[k]);
    }
  }

  lemma DefinedAt(file: Option<string>, us: seq<Update>, u: Update) returns (i: nat)
    requires WellFormed(us) && u in us
    ensures i < |MergedLines(file, us)| && MergedLines(file, us)[i] == u.name + "=" + u.value
    ensures forall j | 0 <= j < |MergedLines(file, us)| && j != i :: NameOf(MergedLines(file, us)[j]) != u.name
  {
    hide NameOf, OldLines, Kept, Trimmed, Sorting.Sorted;
    var k :| 0 <= k < |us| && us[k] == u;
    assert Names(us)[k] == u.name;
    ValueFound(us, u);
    SortedNames(us, u.name);
    var kept, names := Trimmed(Kept(OldLines(file), Names(us))), Sorting.Sorted(Names(us));
    var a :| 0 <= a < |names| && names[a] == u.name;
    i := |kept| + a;
    forall j | 0 <= j < |MergedLines(file, us)| && j != i ensures NameOf(MergedLines(file, us)[j]) != u.name {
      DefinedElsewhere(file, us, a, j);
    }
  }

  lemma DefinedElsewhere(file: Option<string>, us: seq<Update>, a: nat, j: nat)
    requires WellFormed(us) && a < |Sorting.Sorted(Names(us))|
    requires j < |MergedLines(file, us)| && j != |Trimmed(Kept(OldLines(file), Names(us)))| + a
    ensures NameOf(MergedLines(file, us)[j]) != Sorting.Sorted(Names(us))[a]
  {
    hide NameOf, Assign, OldLines, Kept, Trimmed, Sorting.Sorted, WellFormed;
    var kept, names := Trimmed(Kept(OldLines(file), Names(us))), Sorting.Sorted(Names(us));
    var lines := MergedLines(file, us);
    SortedNames(us, names[a]);
    if j < |kept| {
      assert lines[j] == kept[j];
      OldLineKept(OldLines(file), Names(us), kept[j]);
    } else {
      AssignedElsewhere(us, a, j - |kept|);
    }
  }

  lemma OldLineKept(lines: seq<string>, names: seq<string>, line: string)
    requires line in Trimmed(Kept(lines, names))
    ensures NameOf(line) !in names
  {
    TrimmedPrefix(Kept(lines, names));
    KeptHas(lines, names, line);
  }

  lemma AssignedElsewhere(us: seq<Update>, a: nat, b: nat)
    requires WellFormed(us) && a < |Sorting.Sorted(Names(us))| && b < |Sorting.Sorted(Names(us))| && a != b
    ensures NameOf(Assign(us, Sorting.Sorted(Names(us))[b])) != Sorting.Sorted(Names(us))[a]
  {
    var names := Sorting.Sorted(Names(us));
    SortedNames(us, names[b]);
    AssignmentReads(us, names[b]);
    SortedDistinct(us);
    assert a < b || b < a;
  }

  lemma SortedDistinct(us: seq<Update>)
    requires Distinct(Names(us))
    ensures Distinct(Sorting.Sorted(Names(us)))
  {
    Sorting.SortedKeeps(Names(us));
    DistinctSize(Names(us));
    DistinctSize(Sorting.Sorted(Names(us)));
    SameLength(Names(us), Sorting.Sorted(Names(us)));
    forall n ensures n in Names(us) <==> n in Sorting.Sorted(Names(us)) {
      SortedNames(us, n);
    }
    assert SetOf(Names(us)) == SetOf(Sorting.Sorted(Names(us)));
  }

  // --- Filtering and trimming commute -------------------------------------------------------

  lemma {:induction false} KeptJoin(a: seq<string>, b: seq<string>, names: seq<string>)
    ensures Kept(a + b, names) == Kept(a, names) + Kept(b, names)
  {
    if b == [] {
      assert a + b == a;
    } else {
      assert (a + b)[..|a + b| - 1] == a + b[..|b| - 1];
      KeptJoin(a, b[..|b| - 1], names);
    }
  }

  lemma {:induction false} TrimAfterBlank(a: seq<string>, b: seq<string>)
    requires forall i | 0 <= i < |b| :: Blank(b[i])
    ensures Trimmed(a + b) == Trimmed(a)
  {
    if b == [] {
      assert a + b == a;
    } else {
      assert (a + b)[..|a + b| - 1] == a + b[..|b| - 1];
      TrimAfterBlank(a, b[..|b| - 1]);
    }
  }

  lemma TrimThenKeep(lines: seq<string>, names: seq<string>)
    ensures Trimmed(Kept(Trimmed(lines), names)) == Trimmed(Kept(lines, names))
  {
    TrimmedPrefix(lines);
    var t := Trimmed(lines);
    var rest := lines[|t|..];
    assert lines == t + rest;
    KeptJoin(t, rest, names);
    forall i | 0 <= i < |Kept(rest, names)| ensures Blank(Kept(rest, names)[i]) {
      KeptHas(rest, names, Kept(rest, names)[i]);
    }
    TrimAfterBlank(Kept(t, names), Kept(rest, names));
  }

  lemma {:induction false} KeepTwice(lines: seq<string>, first: seq<string>, second: seq<string>)
    requires forall n | n in first :: n in second
    ensures Kept(Kept(lines, first), second) == Kept(lines, second)
  {
    if lines != [] {
      var front, last := lines[..|lines| - 1], lines[|lines| - 1];
      KeepTwice(front, first, second);
      if NameOf(last) !in first {
        assert (Kept(front, first) + [last])[..|Kept(front, first)|] == Kept(front, first);
      }
    }
  }

  lemma {:induction false} KeepNone(lines: seq<string>, names: seq<string>)
    requires forall i | 0 <= i < |lines| :: NameOf(lines[i]) in names
    ensures Kept(lines, names) == []
  {
    if lines != [] {
      KeepNone(lines[..|lines| - 1], names);
    }
  }

  lemma BlankLine()
    ensures NameOf("") == "" && Blank("")
  {
  }

  /** The lines of the file that no update names come through in order, up to blank lines
      at the end. */
  lemma OtherLinesKept(file: Option<string>, us: seq<Update>)
    requires WellFormed(us)
    ensures Trimmed(Kept(SplitLines(Merged(file, us)), Names(us))) == Trimmed(Kept(OldLines(file), Names(us)))
  {
    KeptOfMerged(file, us, Names(us));
  }

  /** Reading a merged file through any filter that covers the updates is reading the
      original through it. */
  lemma KeptOfMerged(file: Option<string>, us: seq<Update>, names: seq<string>)
    requires WellFormed(us) && forall n | n in Names(us) :: n in names
    ensures Trimmed(Kept(SplitLines(Merged(file, us)), names)) == Trimmed(Kept(OldLines(file), names))
  {
    WrittenLines(file, us);
    var lines, kept := MergedLines(file, us), Kept(OldLines(file), Names(us));
    KeptJoin(Trimmed(kept), Assignments(us), names);
    forall i | 0 <= i < |Assignments(us)| ensures NameOf(Assignments(us)[i]) in names {
      AssignmentsAre(us, Assignments(us)[i]);
    }
    KeepNone(Assignments(us), names);
    assert Kept(lines, names) == Kept(Trimmed(kept), names);
    TrimThenKeep(kept, names);
    KeepTwice(OldLines(file), Names(us), names);
    if lines == [] {
      BlankLine();
      assert Kept([], names) == [];
      assert [""][..0] == [];
      assert Trimmed(Kept([""], names)) == [];
    }
  }

  /** A later merge that covers an earlier one leaves no trace of it. */
  lemma MergeAbsorbs(file: Option<string>, us: seq<Update>, vs: seq<Update>)
    requires WellFormed(us) && WellFormed(vs) && forall n | n in Names(us) :: n in Names(vs)
    ensures Merged(Some(Merged(file, us)), vs) == Merged(file, vs)
  {
    KeptOfMerged(file, us, Names(vs));
  }

  /** Writing the same tokens twice is writing them once. */
  lemma MergeIdempotent(file: Option<string>, us: seq<Update>)
    requires WellFormed(us)
    ensures Merged(Some(Merged(file, us)), us) == Merged(file, us)
  {
    MergeAbsorbs(file, us, us);
  }
}
