/** What the changelog's lines, fences, sections and problems are, said by the text itself. */
module ChangelogText {
  import opened Changelog
  import opened Options
  import opened Strings

  // ----- Pieces of a line -----

  function Rep(c: char, n: nat): (s: string)
    ensures |s| == n && forall i :: 0 <= i < n ==> s[i] == c
  {
    seq(n, i => c)
  }

  lemma {:induction false} RunIsWhole(s: string, c: char)
    ensures s == Rep(c, Run(s, c)) + s[Run(s, c)..]
    ensures Run(s, c) < |s| ==> s[Run(s, c)] != c
    decreases |s|
  {
    if s != "" && s[0] == c {
      RunIsWhole(s[1..], c);
    }
  }

  lemma {:induction false} RunOf(c: char, n: nat, rest: string)
    requires rest == "" || rest[0] != c
    ensures Run(Rep(c, n) + rest, c) == n
    decreases n
  {
    if n == 0 {
      assert Rep(c, 0) + rest == rest;
    } else {
      assert (Rep(c, n) + rest)[1..] == Rep(c, n - 1) + rest;
      RunOf(c, n - 1, rest);
    }
  }

  // ----- What a line is -----

  lemma IndentedIs(line: string, indent: nat, rest: string)
    requires rest == "" || rest[0] != ' '
    ensures line == Rep(' ', indent) + rest && indent <= 3 ==> Indented(line) == Some(rest)
  {
    if line == Rep(' ', indent) + rest {
      RunOf(' ', indent, rest);
      assert line[indent..] == rest;
    }
  }

  lemma IndentedWhole(line: string) returns (indent: nat)
    requires Indented(line).Some?
    ensures indent <= 3 && line == Rep(' ', indent) + Indented(line).value
  {
    indent := Run(line, ' ');
    RunIsWhole(line, ' ');
  }

  /** At most three blanks, three or more of the mark, and the rest, which for a backtick fence has
      no backtick in it. */
  predicate IsMarker(line: string, indent: nat, mark: char, length: nat, info: string) {
    && indent <= 3 && length >= 3 && line == Rep(' ', indent) + Rep(mark, length) + info
    && ((mark == '`' && '`' !in info) || (mark == '~' && (info == "" || info[0] != '~')))
  }

  lemma RestIs(mark: char, length: nat, info: string)
    requires length >= 3 && (info == "" || info[0] != mark)
    ensures var rest := Rep(mark, length) + info;
            rest[0] == mark && Run(rest, mark) == length && rest[length..] == info
  {
    RunOf(mark, length, info);
  }

  lemma MarkerIs(line: string, indent: nat, mark: char, length: nat, info: string)
    requires IsMarker(line, indent, mark, length, info)
    ensures MarkerOf(line) == Some(Marker(Fence(mark, length), info))
  {
    var rest := Rep(mark, length) + info;
    assert info != "" ==> info[0] in info;
    RestIs(mark, length, info);
    Regrouped(Rep(' ', indent), Rep(mark, length), info);
    hide Rep, Indented, Run;
    IndentedIs(line, indent, rest);
    OtherRun(rest, if mark == '~' then '`' else '~');
  }

  lemma Regrouped(a: string, b: string, c: string)
    ensures a + b + c == a + (b + c)
  {
  }

  lemma OtherRun(s: string, c: char)
    requires s == "" || s[0] != c
    ensures Run(s, c) == 0
  {
  }

  lemma MarkerWhole(line: string) returns (indent: nat)
    requires MarkerOf(line).Some?
    ensures var m := MarkerOf(line).value; IsMarker(line, indent, m.fence.mark, m.fence.length, m.info)
  {
    indent := IndentedWhole(line);
    var rest := Indented(line).value;
    RunIsWhole(rest, '`');
    RunIsWhole(rest, '~');
    hide Indented, Run;
    var m := MarkerOf(line).value;
    Regrouped(Rep(' ', indent), Rep(m.fence.mark, m.fence.length), m.info);
  }

  /** `_FENCE` matches exactly the lines of that shape. */
  lemma MarkersExactly(line: string, mark: char, length: nat, info: string)
    ensures MarkerOf(line) == Some(Marker(Fence(mark, length), info))
            <==> exists indent: nat :: IsMarker(line, indent, mark, length, info)
  {
    hide MarkerOf, IsMarker;
    if MarkerOf(line) == Some(Marker(Fence(mark, length), info)) {
      var indent := MarkerWhole(line);
    }
    if indent: nat :| IsMarker(line, indent, mark, length, info) {
      MarkerIs(line, indent, mark, length, info);
    }
  }

  /** Two hash signs behind at most three blanks, white space, and a title with none at its ends. */
  predicate IsHeading(line: string, indent: nat, gap: string, title: string, tail: string) {
    && indent <= 3 && gap != "" && AllSpace(gap) && IsTrimmed(title) && AllSpace(tail)
    && line == Rep(' ', indent) + "##" + gap + title + tail
  }

  lemma HashesIs(line: string, indent: nat, rest: string)
    requires indent <= 3 && line == Rep(' ', indent) + "##" + rest
    ensures AfterHashes(line) == Some(rest)
  {
    assert line == Rep(' ', indent) + ("##" + rest);
    IndentedIs(line, indent, "##" + rest);
    assert ("##" + rest)[..2] == "##" && ("##" + rest)[2..] == rest;
    hide Indented;
  }

  lemma HashesWhole(line: string) returns (indent: nat)
    requires AfterHashes(line).Some?
    ensures indent <= 3 && line == Rep(' ', indent) + "##" + AfterHashes(line).value
  {
    indent := IndentedWhole(line);
    var rest := Indented(line).value;
    assert rest == "##" + rest[2..];
    hide Indented;
  }

  lemma HeadingIs(line: string, indent: nat, gap: string, title: string, tail: string)
    requires IsHeading(line, indent, gap, title, tail)
    ensures HeadingOf(line) == Some(title)
  {
    var rest := gap + title + tail;
    assert line == Rep(' ', indent) + "##" + rest;
    HashesIs(line, indent, rest);
    StripOf(gap, title, tail);
    assert rest[0] == gap[0];
    hide AfterHashes, Strip;
  }

  /** `_HEADING` matches exactly those. */
  lemma HeadingsExactly(line: string, title: string)
    ensures HeadingOf(line) == Some(title)
            <==> exists indent: nat, gap, tail :: IsHeading(line, indent, gap, title, tail)
  {
    if HeadingOf(line) == Some(title) {
      var indent := HashesWhole(line);
      var rest := AfterHashes(line).value;
      var gap, tail := StripIs(rest);
      hide AfterHashes, Strip, IsTrimmed;
      assert gap != "" by {
        GapIs(rest, gap, title, tail);
      }
      assert line == Rep(' ', indent) + "##" + gap + title + tail;
      assert IsHeading(line, indent, gap, title, tail);
    }
    if indent: nat, gap, tail :| IsHeading(line, indent, gap, title, tail) {
      HeadingIs(line, indent, gap, title, tail);
    }
  }

  lemma GapIs(rest: string, gap: string, title: string, tail: string)
    requires rest == gap + title + tail && IsTrimmed(title) && IsSpace(rest[0])
    ensures gap != ""
  {
    if gap == "" {
      assert rest[0] == title[0];
      SpaceIs(rest[0]);
    }
  }

  /** `_LOOSE_HEADING` matches exactly the lines with two hash signs, behind at most three blanks,
      and something stuck to them. */
  lemma LooseExactly(line: string)
    ensures IsLooseHeading(line)
            <==> exists indent: nat, rest: string :: IsLoose(line, indent, rest)
  {
    if IsLooseHeading(line) {
      var indent := HashesWhole(line);
      var rest := AfterHashes(line).value;
      SpaceIs(rest[0]);
      assert IsLoose(line, indent, rest);
    }
    if indent: nat, rest: string :| IsLoose(line, indent, rest) {
      HashesIs(line, indent, rest);
      SpaceIs(rest[0]);
    }
  }

  predicate IsLoose(line: string, indent: nat, rest: string) {
    indent <= 3 && rest != "" && !AllSpace([rest[0]]) && rest[0] != '#' && line == Rep(' ', indent) + "##" + rest
  }

  /** The first line: one hash sign, white space, the word, and nothing else but white space. */
  lemma TitleExactly(line: string)
    ensures IsTitle(line) <==> exists gap, tail :: IsTitleLine(line, gap, tail)
  {
    if IsTitle(line) {
      var gap, tail := StripIs(line[1..]);
      var rest := line[1..];
      assert rest[0] == line[1];
      hide Strip;
      GapIs(rest, gap, "Changelog", tail);
      assert line == "#" + rest;
      assert IsTitleLine(line, gap, tail);
    }
    if gap, tail :| IsTitleLine(line, gap, tail) {
      var rest := gap + "Changelog" + tail;
      assert line[1..] == rest && line[1] == gap[0];
      SpaceIs('C');
      SpaceIs('g');
      StripOf(gap, "Changelog", tail);
      hide Strip;
    }
  }

  predicate IsTitleLine(line: string, gap: string, tail: string) {
    gap != "" && AllSpace(gap) && AllSpace(tail) && line == "#" + gap + "Changelog" + tail
  }

  // ----- Versions -----

  /** `v`, three numerals with dots between them, and perhaps a line feed. */
  predicate IsVersionText(heading: string, a: string, b: string, c: string) {
    && IsNumeral(a) && IsNumeral(b) && IsNumeral(c)
    && (heading == "v" + a + "." + b + "." + c || heading == "v" + a + "." + b + "." + c + "\n")
  }

  lemma NoDot(digits: string)
    requires AllDigits(digits)
    ensures '.' !in digits && '\n' !in digits
  {
    forall c | c in digits ensures c != '.' && c != '\n' {
      var i :| 0 <= i < |digits| && digits[i] == c;
    }
  }

  lemma CoreParts(a: string, b: string, c: string)
    requires IsNumeral(a) && IsNumeral(b) && IsNumeral(c)
    ensures Split(a + "." + b + "." + c, '.') == [a, b, c]
  {
    NoDot(a);
    NoDot(b);
    NoDot(c);
    SplitNone(a, '.');
    SplitNone(b, '.');
    SplitNone(c, '.');
    SplitTwo(a, b, '.');
    SplitTwo(a + "." + b, c, '.');
    hide Split, IsNumeral;
  }

  lemma CoreOf(core: string, a: string, b: string, c: string)
    requires IsNumeral(a) && IsNumeral(b) && IsNumeral(c) && core == "v" + a + "." + b + "." + c
    ensures core[0] == 'v' && core[1..] == a + "." + b + "." + c && core[|core| - 1] != '\n'
  {
    assert core[|core| - 1] == c[|c| - 1];
    NoDot(c);
  }

  lemma VersionIs(heading: string, a: string, b: string, c: string)
    requires IsVersionText(heading, a, b, c)
    ensures KeyOf(heading) == Some(Key(Number(a), Number(b), Number(c)))
  {
    var core := "v" + a + "." + b + "." + c;
    CoreOf(core, a, b, c);
    CoreParts(a, b, c);
    hide Split, Number, AllDigits;
    if heading == core + "\n" {
      assert DropLast(heading) == core && heading[|heading| - 1] == '\n';
    } else {
      assert heading == core;
    }
  }

  /** `_VERSION` matches exactly the headings of that shape, and the key is made of the numerals'
      values. */
  lemma VersionsExactly(heading: string, key: Key)
    ensures KeyOf(heading) == Some(key)
            <==> exists a, b, c :: IsVersionText(heading, a, b, c) && key == Key(Number(a), Number(b), Number(c))
  {
    if KeyOf(heading) == Some(key) {
      var a, b, c := VersionParts(heading);
      VersionIs(heading, a, b, c);
    }
    if a, b, c :| IsVersionText(heading, a, b, c) && key == Key(Number(a), Number(b), Number(c)) {
      VersionIs(heading, a, b, c);
    }
  }

  lemma PartsGlue(core: string, parts: seq<string>)
    requires core != "" && core[0] == 'v' && parts == Split(core[1..], '.') && |parts| == 3
    ensures core == "v" + parts[0] + "." + parts[1] + "." + parts[2]
  {
    JoinSplit(core[1..], '.');
    JoinThree(parts[0], parts[1], parts[2], '.');
    hide Split, Join;
    assert parts == [parts[0], parts[1], parts[2]];
    assert core == "v" + core[1..];
    assert "v" + (parts[0] + "." + parts[1] + "." + parts[2]) == "v" + parts[0] + "." + parts[1] + "." + parts[2];
  }

  lemma VersionParts(heading: string) returns (a: string, b: string, c: string)
    requires KeyOf(heading).Some?
    ensures IsVersionText(heading, a, b, c)
  {
    hide Split, Number, AllDigits;
    var core := if heading != "" && heading[|heading| - 1] == '\n' then DropLast(heading) else heading;
    var parts := Split(core[1..], '.');
    a, b, c := parts[0], parts[1], parts[2];
    PartsGlue(core, parts);
    if core != heading {
      assert heading == core + "\n";
    }
  }

  // ----- Fences -----

  /** A line that closes an open fence: at most three blanks, the fence's mark at least as often,
      and nothing else but white space. */
  predicate IsCloser(line: string, open: Fence, indent: nat, length: nat, tail: string) {
    indent <= 3 && length >= open.length && AllSpace(tail) && line == Rep(' ', indent) + Rep(open.mark, length) + tail
  }

  ghost predicate ClosesIt(line: string, open: Fence) {
    exists indent: nat, length: nat, tail :: IsCloser(line, open, indent, length, tail)
  }

  predicate IsFence(f: Fence) {
    (f.mark == '`' || f.mark == '~') && f.length >= 3
  }

  lemma BlankInfo(info: string)
    ensures Strip(info) == "" <==> AllSpace(info)
  {
    if Strip(info) == "" {
      var front, back := StripIs(info);
    }
    if AllSpace(info) {
      assert info == info + "" + "";
      StripOf(info, "", "");
    }
    hide Strip;
  }

  lemma NoMarkInBlank(tail: string, mark: char)
    requires AllSpace(tail) && (mark == '`' || mark == '~')
    ensures mark !in tail
  {
    assert forall i :: 0 <= i < |tail| ==> tail[i] != mark;
  }

  /** What a line does to an open fence. */
  lemma ClosesExactly(line: string, open: Fence)
    requires IsFence(open)
    ensures ClosesIt(line, open) ==> NextFence(Some(open), line).0 == None && IsFenceLine(line)
    ensures !ClosesIt(line, open) ==> NextFence(Some(open), line).0 == Some(open)
  {
    if indent: nat, length: nat, tail :| IsCloser(line, open, indent, length, tail) {
      NoMarkInBlank(tail, open.mark);
      assert tail != "" ==> tail[0] in tail;
      MarkerIs(line, indent, open.mark, length, tail);
      BlankInfo(tail);
      hide MarkerOf, Strip;
    }
    if NextFence(Some(open), line).0 == None {
      var m := MarkerOf(line).value;
      MarkersExactly(line, m.fence.mark, m.fence.length, m.info);
      BlankInfo(m.info);
      hide MarkerOf, Strip;
      var indent: nat :| IsMarker(line, indent, m.fence.mark, m.fence.length, m.info);
      assert IsCloser(line, open, indent, m.fence.length, m.info);
    }
  }

  /** Line `o` opens the fence: none is open, and it is a marker of that mark and length. */
  ghost predicate Opens(lines: seq<string>, o: nat, f: Fence)
    requires o < |lines|
  {
    FenceAfter(lines, o).None? && exists indent: nat, info :: IsMarker(lines[o], indent, f.mark, f.length, info)
  }

  /** Line `o` has opened the fence and no line since has closed it. */
  ghost predicate StaysOpen(lines: seq<string>, o: nat, n: nat, f: Fence)
    requires n <= |lines|
  {
    o < n && Opens(lines, o, f) && forall k :: o < k < n ==> !ClosesIt(lines[k], f)
  }

  lemma {:induction false} FencesAreFences(lines: seq<string>, n: nat)
    requires n <= |lines|
    ensures FenceAfter(lines, n).Some? ==> IsFence(FenceAfter(lines, n).value)
    decreases n
  {
    if n > 0 {
      FencesAreFences(lines, n - 1);
      hide Indented, Run, Strip;
    }
  }

  lemma OpensExactly(lines: seq<string>, o: nat, f: Fence)
    requires o < |lines| && FenceAfter(lines, o).None?
    ensures FenceAfter(lines, o + 1) == Some(f) <==> Opens(lines, o, f)
  {
    hide MarkerOf;
    if FenceAfter(lines, o + 1) == Some(f) {
      MarkersExactly(lines[o], f.mark, f.length, MarkerOf(lines[o]).value.info);
    }
    if indent: nat, info :| IsMarker(lines[o], indent, f.mark, f.length, info) {
      MarkerIs(lines[o], indent, f.mark, f.length, info);
    }
  }

  lemma ShorterOpen(lines: seq<string>, o: nat, m: nat, n: nat, f: Fence)
    requires m <= n <= |lines| && o < m
    ensures StaysOpen(lines, o, n, f) <==> StaysOpen(lines, o, m, f) && forall k :: m <= k < n ==> !ClosesIt(lines[k], f)
  {
    hide Opens, ClosesIt;
  }

  /** Exactly when a line opened it and none since has closed it; and that line is the one a report
      names. */
  ghost predicate IsOpenWhen(lines: seq<string>, n: nat, f: Fence)
    requires n <= |lines|
  {
    && (FenceAfter(lines, n) == Some(f) <==> exists o: nat :: StaysOpen(lines, o, n, f))
    && (forall o: nat :: StaysOpen(lines, o, n, f) ==> OpenedAt(lines, n) == o + 1)
  }

  lemma LineOpens(lines: seq<string>, m: nat, f: Fence)
    requires m < |lines| && FenceAfter(lines, m).None? && IsOpenWhen(lines, m, f)
    ensures IsOpenWhen(lines, m + 1, f)
  {
    var n := m + 1;
    OpensExactly(lines, m, f);
    hide NextFence, MarkerOf, Opens, ClosesIt;
    if FenceAfter(lines, n) == Some(f) {
      assert StaysOpen(lines, m, n, f);
    }
    forall o: nat | StaysOpen(lines, o, n, f) ensures o == m && FenceAfter(lines, n) == Some(f) {
      assert o < m ==> StaysOpen(lines, o, m, f);
    }
  }

  lemma LineMeetsFence(lines: seq<string>, m: nat, f: Fence)
    requires m < |lines| && FenceAfter(lines, m).Some? && IsOpenWhen(lines, m, f)
    ensures IsOpenWhen(lines, m + 1, f)
  {
    var n, open := m + 1, FenceAfter(lines, m).value;
    FencesAreFences(lines, m);
    ClosesExactly(lines[m], open);
    hide NextFence, MarkerOf, ClosesIt;
    if FenceAfter(lines, n) == Some(f) {
      var o: nat :| StaysOpen(lines, o, m, f);
      ShorterOpen(lines, o, m, n, f);
    }
    forall o: nat | StaysOpen(lines, o, n, f) ensures OpenedAt(lines, n) == o + 1 && FenceAfter(lines, n) == Some(f) {
      assert o != m;
      ShorterOpen(lines, o, m, n, f);
    }
  }

  lemma {:induction false} OpenWhen(lines: seq<string>, n: nat, f: Fence)
    requires n <= |lines|
    ensures IsOpenWhen(lines, n, f)
    decreases n
  {
    hide *;
    if n == 0 {
      NoneOpen(lines, f);
    } else {
      OpenWhen(lines, n - 1, f);
      if FenceAfter(lines, n - 1).None? {
        LineOpens(lines, n - 1, f);
      } else {
        LineMeetsFence(lines, n - 1, f);
      }
    }
  }

  lemma NoneOpen(lines: seq<string>, f: Fence)
    ensures IsOpenWhen(lines, 0, f)
  {
  }

  /** After the first `n` lines a fence is open exactly when a line opened it and none since has
      closed it; and that line is the one a report names. */
  lemma OpenExactly(lines: seq<string>, n: nat, f: Fence)
    requires n <= |lines|
    ensures FenceAfter(lines, n) == Some(f) <==> exists o: nat :: StaysOpen(lines, o, n, f)
    ensures forall o: nat :: StaysOpen(lines, o, n, f) ==> OpenedAt(lines, n) == o + 1
  {
    OpenWhen(lines, n, f);
    hide StaysOpen, FenceAfter, OpenedAt;
  }

  // ----- Sections -----

  lemma HashIsNoMarker(line: string)
    requires AfterHashes(line).Some?
    ensures !IsFenceLine(line)
  {
    var rest := Indented(line).value;
    assert rest[0] == '#';
    OtherRun(rest, '`');
    OtherRun(rest, '~');
    hide Indented, Run;
  }

  lemma PlainLine(lines: seq<string>, k: nat)
    requires k < |lines| && !IsFenceLine(lines[k])
    ensures FenceAfter(lines, k + 1) == FenceAfter(lines, k)
  {
    hide MarkerOf;
  }

  /** A line starts a section exactly when no fence is open before it and it is a heading. */
  lemma StartsExactly(lines: seq<string>, k: nat, title: string)
    requires k < |lines|
    ensures StartsSection(lines, k) && HeadingOf(lines[k]) == Some(title)
            <==> FenceAfter(lines, k).None? && exists indent: nat, gap, tail :: IsHeading(lines[k], indent, gap, title, tail)
  {
    HeadingsExactly(lines[k], title);
    if HeadingOf(lines[k]).Some? {
      HashIsNoMarker(lines[k]);
      PlainLine(lines, k);
    }
    hide IsHeading, HeadingOf, MarkerOf;
  }

  /** The lines of the first `n` that start a section. */
  function Starts(lines: seq<string>, n: nat): (r: seq<nat>)
    requires n <= |lines|
    ensures forall i :: 0 <= i < |r| ==> r[i] < n && StartsSection(lines, r[i]) && HeadingOf(lines[r[i]]).Some?
    ensures forall i, j :: 0 <= i < j < |r| ==> r[i] < r[j]
    ensures forall k: nat :: k < n && StartsSection(lines, k) ==> k in r
  {
    if n == 0 then [] else Starts(lines, n - 1) + if StartsSection(lines, n - 1) then [n - 1] else []
  }

  predicate IsStretch(lines: seq<string>, n: nat, starts: seq<nat>, i: nat, section: Raw)
    requires n <= |lines| && i < |starts| && forall j :: 0 <= j < |starts| ==> starts[j] < n
    requires forall j, k :: 0 <= j < k < |starts| ==> starts[j] < starts[k]
  {
    && HeadingOf(lines[starts[i]]) == Some(section.heading)
    && section.lines == lines[starts[i] + 1..if i + 1 < |starts| then starts[i + 1] else n]
  }

  ghost predicate AreStretches(lines: seq<string>, n: nat)
    requires n <= |lines|
  {
    && |SectionsOf(lines, n)| == |Starts(lines, n)|
    && forall i :: 0 <= i < |Starts(lines, n)| ==> IsStretch(lines, n, Starts(lines, n), i, SectionsOf(lines, n)[i])
  }

  /** One more line: the last stretch grows by it, unless it starts one of its own. */
  lemma StretchAt(lines: seq<string>, m: nat, starts: seq<nat>, i: nat, section: Raw)
    requires m < |lines| && i < |starts| && forall j :: 0 <= j < |starts| ==> starts[j] < m
    requires forall j, k :: 0 <= j < k < |starts| ==> starts[j] < starts[k]
    requires IsStretch(lines, m, starts, i, section)
    ensures i + 1 < |starts| ==> IsStretch(lines, m + 1, starts, i, section)
    ensures i + 1 == |starts| ==> IsStretch(lines, m + 1, starts, i, Raw(section.heading, section.lines + [lines[m]]))
    ensures IsStretch(lines, m + 1, starts + [m], i, section)
  {
    hide HeadingOf;
    if i + 1 == |starts| {
      assert lines[starts[i] + 1..m + 1] == lines[starts[i] + 1..m] + [lines[m]];
    }
  }

  lemma NewStretch(lines: seq<string>, m: nat, starts: seq<nat>)
    requires m < |lines| && HeadingOf(lines[m]).Some? && forall j :: 0 <= j < |starts| ==> starts[j] < m
    requires forall j, k :: 0 <= j < k < |starts| ==> starts[j] < starts[k]
    ensures IsStretch(lines, m + 1, starts + [m], |starts|, Raw(HeadingOf(lines[m]).value, []))
  {
    hide HeadingOf;
  }

  lemma SectionsSnoc(lines: seq<string>, m: nat)
    requires m < |lines|
    ensures StartsSection(lines, m) ==>
              && HeadingOf(lines[m]).Some? && Starts(lines, m + 1) == Starts(lines, m) + [m]
              && SectionsOf(lines, m + 1) == SectionsOf(lines, m) + [Raw(HeadingOf(lines[m]).value, [])]
    ensures !StartsSection(lines, m) ==>
              Starts(lines, m + 1) == Starts(lines, m) && SectionsOf(lines, m + 1) == WithLine(SectionsOf(lines, m), lines[m])
  {
    hide HeadingOf, FenceAfter, WithLine, IsFenceLine;
  }

  predicate AreStarts(starts: seq<nat>, m: nat) {
    && (forall j :: 0 <= j < |starts| ==> starts[j] < m)
    && (forall j, k :: 0 <= j < k < |starts| ==> starts[j] < starts[k])
  }

  lemma LastGrows(lines: seq<string>, m: nat, n: nat, starts: seq<nat>, before: seq<Raw>)
    requires m < |lines| && n == m + 1 && AreStarts(starts, m) && |before| == |starts|
    requires forall i :: 0 <= i < |starts| ==> IsStretch(lines, m, starts, i, before[i])
    ensures var after := WithLine(before, lines[m]);
            |after| == |starts| && forall i :: 0 <= i < |starts| ==> IsStretch(lines, n, starts, i, after[i])
  {
    var after := WithLine(before, lines[m]);
    hide IsStretch;
    forall i | 0 <= i < |starts| ensures IsStretch(lines, n, starts, i, after[i]) {
      StretchAt(lines, m, starts, i, before[i]);
    }
  }

  lemma OneMoreStarts(lines: seq<string>, m: nat, n: nat, starts: seq<nat>, before: seq<Raw>)
    requires m < |lines| && n == m + 1 && AreStarts(starts, m) && |before| == |starts| && HeadingOf(lines[m]).Some?
    requires forall i :: 0 <= i < |starts| ==> IsStretch(lines, m, starts, i, before[i])
    ensures var now, after := starts + [m], before + [Raw(HeadingOf(lines[m]).value, [])];
            AreStarts(now, n) && |after| == |now| && forall i :: 0 <= i < |now| ==> IsStretch(lines, n, now, i, after[i])
  {
    var now, after := starts + [m], before + [Raw(HeadingOf(lines[m]).value, [])];
    NewStretch(lines, m, starts);
    hide IsStretch, HeadingOf;
    forall i | 0 <= i < |now| ensures IsStretch(lines, n, now, i, after[i]) {
      if i < |starts| {
        StretchAt(lines, m, starts, i, before[i]);
      }
    }
  }

  lemma OneMoreLine(lines: seq<string>, m: nat)
    requires m < |lines| && AreStretches(lines, m)
    ensures AreStretches(lines, m + 1)
  {
    hide HeadingOf, IsStretch, Starts, SectionsOf, StartsSection, WithLine;
    SectionsSnoc(lines, m);
    if StartsSection(lines, m) {
      OneMoreStarts(lines, m, m + 1, Starts(lines, m), SectionsOf(lines, m));
    } else {
      LastGrows(lines, m, m + 1, Starts(lines, m), SectionsOf(lines, m));
    }
  }

  /** The sections are the stretches from one such line to the next: each has the title of the line
      that starts it and the lines between, all of them and in order. */
  lemma {:induction false} SectionsExactly(lines: seq<string>, n: nat)
    requires n <= |lines|
    ensures |SectionsOf(lines, n)| == |Starts(lines, n)|
    ensures forall i :: 0 <= i < |Starts(lines, n)| ==> IsStretch(lines, n, Starts(lines, n), i, SectionsOf(lines, n)[i])
    decreases n
  {
    if n > 0 {
      SectionsExactly(lines, n - 1);
      assert AreStretches(lines, n - 1);
      OneMoreLine(lines, n - 1);
      hide StartsSection, IsStretch, SectionsOf, Starts;
      assert AreStretches(lines, n);
    }
  }

  // ----- Problems -----

  lemma LooseSnoc(lines: seq<string>, m: nat)
    requires m < |lines|
    ensures Loose(lines, m + 1)
            == if FenceAfter(lines, m).None? && IsLooseHeading(lines[m]) then Loose(lines, m) + [NeedsSpace(m + 1)] else Loose(lines, m)
  {
    if IsLooseHeading(lines[m]) {
      HashIsNoMarker(lines[m]);
      PlainLine(lines, m);
    }
    hide IsLooseHeading, MarkerOf, FenceAfter;
  }

  /** Line `number` is loose and outside fences. */
  predicate IsLost(lines: seq<string>, number: nat)
    requires 0 < number <= |lines|
  {
    FenceAfter(lines, number - 1).None? && IsLooseHeading(lines[number - 1])
  }

  /** Lost headings are reported by line: exactly the loose ones outside fences. */
  lemma {:induction false} LooseReports(lines: seq<string>, n: nat, p: Problem)
    requires n <= |lines|
    ensures p in Loose(lines, n) <==> p.NeedsSpace? && 0 < p.line <= n && IsLost(lines, p.line)
    decreases n
  {
    if n > 0 {
      hide FenceAfter, IsLooseHeading, Loose;
      LooseReports(lines, n - 1, p);
      LooseSnoc(lines, n - 1);
    }
  }

  predicate IsReleased(s: Section) {
    s.heading != UNRELEASED && KeyOf(s.heading).Some?
  }

  /** The released section nearest above. */
  function Above(sections: seq<Section>, n: nat): Option<nat>
    requires n <= |sections|
    ensures Above(sections, n).Some? ==> Above(sections, n).value < n && IsReleased(sections[Above(sections, n).value])
  {
    if n == 0 then None else if IsReleased(sections[n - 1]) then Some(n - 1) else Above(sections, n - 1)
  }

  predicate IsRepeated(sections: seq<Section>, i: nat, j: nat, heading: string)
    requires i < j < |sections|
  {
    IsReleased(sections[j]) && sections[i].heading == heading == sections[j].heading
  }

  predicate IsNotBelow(sections: seq<Section>, j: nat)
    requires j < |sections|
  {
    && IsReleased(sections[j]) && Above(sections, j).Some?
    && !Less(KeyOf(sections[j].heading).value, KeyOf(sections[Above(sections, j).value].heading).value)
  }

  /** What is wrong with the section at `j`, seen from the ones above it. */
  ghost predicate IsWrong(sections: seq<Section>, j: nat, p: Problem)
    requires j < |sections|
  {
    var heading := sections[j].heading;
    match p
    case UnreleasedNotFirst => heading == UNRELEASED && j > 0
    case NotAVersion(h) => h == heading && heading != UNRELEASED && KeyOf(heading).None?
    case Repeated(h) => h == heading && exists i: nat :: i < j && IsRepeated(sections, i, j, heading)
    case NotBelow(h) => h == heading && IsNotBelow(sections, j)
    case NoEntries(h) => h == heading && IsReleased(sections[j]) && sections[j].body == ""
    case _ => false
  }

  predicate IsSeen(sections: seq<Section>, n: nat, v: string)
    requires n <= |sections|
  {
    exists i: nat :: i < n && IsReleased(sections[i]) && sections[i].heading == v
  }

  /** What the walk has seen: the released headings, and the key of the last one. */
  ghost predicate HasSeen(sections: seq<Section>, n: nat)
    requires n <= |sections|
  {
    && (forall v :: v in Walked(sections, n).seen <==> IsSeen(sections, n, v))
    && Walked(sections, n).previous
       == (if Above(sections, n).Some? then KeyOf(sections[Above(sections, n).value].heading) else None)
  }

  lemma SeenSnoc(sections: seq<Section>, m: nat)
    requires m < |sections|
    ensures forall v :: IsSeen(sections, m + 1, v) <==> IsSeen(sections, m, v) || (IsReleased(sections[m]) && sections[m].heading == v)
  {
    hide KeyOf;
    var n := m + 1;
    forall v ensures IsSeen(sections, n, v) <==> IsSeen(sections, m, v) || (IsReleased(sections[m]) && sections[m].heading == v) {
    }
  }

  lemma TurnSees(sections: seq<Section>, m: nat)
    requires m < |sections| && HasSeen(sections, m)
    ensures HasSeen(sections, m + 1)
  {
    SeenSnoc(sections, m);
    hide KeyOf, Less, When, IsSeen;
  }

  lemma {:induction false} WalkSees(sections: seq<Section>, n: nat)
    requires n <= |sections|
    ensures HasSeen(sections, n)
    decreases n
  {
    if n > 0 {
      hide *;
      WalkSees(sections, n - 1);
      TurnSees(sections, n - 1);
    }
  }

  lemma TurnReports(sections: seq<Section>, m: nat, p: Problem)
    requires m < |sections| && HasSeen(sections, m)
    ensures p in Walked(sections, m + 1).problems <==> p in Walked(sections, m).problems || IsWrong(sections, m, p)
  {
    hide KeyOf, Less;
    var s := sections[m];
    if IsReleased(s) {
      assert (exists i: nat :: i < m && IsRepeated(sections, i, m, s.heading)) <==> IsSeen(sections, m, s.heading) by {
        RepeatedIsSeen(sections, m);
      }
    }
  }

  lemma RepeatedIsSeen(sections: seq<Section>, m: nat)
    requires m < |sections| && IsReleased(sections[m])
    ensures (exists i: nat :: i < m && IsRepeated(sections, i, m, sections[m].heading)) <==> IsSeen(sections, m, sections[m].heading)
  {
    var heading := sections[m].heading;
    hide KeyOf;
    if i: nat :| i < m && IsReleased(sections[i]) && sections[i].heading == heading {
      assert IsRepeated(sections, i, m, heading);
    }
    if i: nat :| i < m && IsRepeated(sections, i, m, heading) {
      assert IsReleased(sections[i]) && sections[i].heading == heading;
    }
  }

  ghost predicate SomeWrong(sections: seq<Section>, n: nat, p: Problem)
    requires n <= |sections|
  {
    exists j: nat :: j < n && IsWrong(sections, j, p)
  }

  lemma WrongSnoc(sections: seq<Section>, m: nat, p: Problem)
    requires m < |sections|
    ensures SomeWrong(sections, m + 1, p) <==> SomeWrong(sections, m, p) || IsWrong(sections, m, p)
  {
    hide IsWrong;
  }

  lemma {:induction false} WalkTells(sections: seq<Section>, n: nat, p: Problem)
    requires n <= |sections|
    ensures p in Walked(sections, n).problems <==> SomeWrong(sections, n, p)
    decreases n
  {
    if n > 0 {
      hide *;
      WalkTells(sections, n - 1, p);
      WalkSees(sections, n - 1);
      TurnReports(sections, n - 1, p);
      WrongSnoc(sections, n - 1, p);
    }
  }

  /** The walk reports exactly what is wrong with a section. */
  lemma WalkReports(sections: seq<Section>, n: nat, p: Problem)
    requires n <= |sections|
    ensures p in Walked(sections, n).problems <==> exists j: nat :: j < n && IsWrong(sections, j, p)
  {
    WalkTells(sections, n, p);
    hide Walked, IsWrong;
  }

  /** Everything a validation reports, and nothing else: lost headings outside fences, a fence that
      is left open, a bad first line, no sections at all, what is wrong with a section, and no
      release among the sections. */
  lemma ReportsExactly(text: string, p: Problem)
    ensures var lines, sections := Lines(text), Parsed(text);
            p in Problems(text) <==>
              match p
              case NeedsSpace(number) => 0 < number <= |lines| && IsLost(lines, number)
              case NeverClosed(number) => FenceAfter(lines, |lines|).Some? && number == OpenedAt(lines, |lines|)
              case BadTitle => !IsTitle(lines[0])
              case NoSections => sections == []
              case NoReleases => sections != [] && forall s :: s in sections ==> !IsReleased(s)
              case _ => exists j: nat :: j < |sections| && IsWrong(sections, j, p)
  {
    hide *;
    var lines, sections := Lines(text), Parsed(text);
    LooseReports(lines, |lines|, p);
    WalkReports(sections, |sections|, p);
    WalkSees(sections, |sections|);
    SeenOrNot(sections);
    WrongKinds(sections, p);
    PartsOfReport(text, p);
  }

  lemma PartsOfReport(text: string, p: Problem)
    ensures var lines, sections := Lines(text), Parsed(text);
            p in Problems(text) <==>
              || p in Loose(lines, |lines|)
              || (FenceAfter(lines, |lines|).Some? && p == NeverClosed(OpenedAt(lines, |lines|)))
              || (!IsTitle(lines[0]) && p == BadTitle)
              || (sections == [] && p == NoSections)
              || (sections != [] && p in Walked(sections, |sections|).problems)
              || (sections != [] && Walked(sections, |sections|).seen == [] && p == NoReleases)
  {
    hide Lines, Parsed, IsTitle, Walked, FenceAfter, OpenedAt, Loose;
  }

  lemma WrongKinds(sections: seq<Section>, p: Problem)
    ensures p.NeedsSpace? || p.NeverClosed? || p.BadTitle? || p.NoSections? || p.NoReleases? ==>
              !exists j: nat :: j < |sections| && IsWrong(sections, j, p)
  {
  }

  lemma SeenOrNot(sections: seq<Section>)
    requires HasSeen(sections, |sections|)
    ensures Walked(sections, |sections|).seen == [] <==> forall s :: s in sections ==> !IsReleased(s)
  {
    var seen := Walked(sections, |sections|).seen;
    hide Walked, IsReleased;
    if seen != [] {
      assert seen[0] in seen;
      assert IsSeen(sections, |sections|, seen[0]);
    }
    forall s | s in sections && IsReleased(s) ensures seen != [] {
      var i :| 0 <= i < |sections| && sections[i] == s;
      assert IsSeen(sections, |sections|, s.heading);
    }
  }

  // ----- The text and its entries -----

  lemma {:induction false} PartsHaveNoSeparator(s: string, separator: char)
    ensures forall part :: part in Split(s, separator) ==> separator !in part
    decreases |s|
  {
    if s != "" {
      PartsHaveNoSeparator(s[1..], separator);
      var rest := Split(s[1..], separator);
      assert forall part :: part in rest[1..] ==> part in rest;
    }
  }

  /** The lines are the text between its line feeds. */
  lemma LinesExactly(text: string)
    ensures Join(Lines(text), '\n') == text
    ensures forall line :: line in Lines(text) ==> '\n' !in line
  {
    JoinSplit(text, '\n');
    PartsHaveNoSeparator(text, '\n');
  }

  /** The entries of a tag are those of the first section under it. */
  lemma {:induction false} EntriesExactly(sections: seq<Section>, tag: string)
    ensures match FirstOf(sections, tag)
            case Missing => forall s :: s in sections ==> s.heading != tag
            case Empty => exists i :: 0 <= i < |sections| && IsFirst(sections, i, tag) && sections[i].body == ""
            case Entries(body) => body != "" && exists i :: 0 <= i < |sections| && IsFirst(sections, i, tag) && sections[i].body == body
    decreases |sections|
  {
    if sections != [] {
      if sections[0].heading == tag {
        assert IsFirst(sections, 0, tag);
      } else {
        EntriesExactly(sections[1..], tag);
        var found := FirstOf(sections[1..], tag);
        if !found.Missing? {
          var i :| 0 <= i < |sections[1..]| && IsFirst(sections[1..], i, tag)
                   && sections[1..][i].body == if found.Empty? then "" else found.body;
          assert IsFirst(sections, i + 1, tag);
        }
      }
    }
  }

  predicate IsFirst(sections: seq<Section>, i: int, tag: string)
    requires 0 <= i < |sections|
  {
    sections[i].heading == tag && forall j :: 0 <= j < i ==> sections[j].heading != tag
  }
}
