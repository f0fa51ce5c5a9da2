/** The changelog's parser, its validator and what the release command reads from it
    (`scripts/release_notes.py`). */
module Changelog {
  import opened Options
  import opened Strings

  const UNRELEASED := "Unreleased"

  // ----- Lines -----

  /** The length of the run of `c` that `s` starts with. */
  function Run(s: string, c: char): (n: nat)
    ensures n <= |s|
  {
    if s != "" && s[0] == c then 1 + Run(s[1..], c) else 0
  }

  /** What follows an indent of at most three blanks. */
  function Indented(line: string): Option<string> {
    if Run(line, ' ') > 3 then None else Some(line[Run(line, ' ')..])
  }

  /** A fence marker: its character and its length. */
  datatype Fence = Fence(mark: char, length: nat)

  datatype Marker = Marker(fence: Fence, info: string)

  /** `_fence_marker`. The info string of a backtick fence has no backtick in it. */
  function MarkerOf(line: string): Option<Marker> {
    match Indented(line)
    case None => None
    case Some(rest) =>
      var ticks, tildes := Run(rest, '`'), Run(rest, '~');
      if ticks >= 3 && '`' !in rest[ticks..] then Some(Marker(Fence('`', ticks), rest[ticks..]))
      else if tildes >= 3 then Some(Marker(Fence('~', tildes), rest[tildes..]))
      else None
  }

  predicate Closes(m: Marker, open: Fence) {
    m.fence.mark == open.mark && m.fence.length >= open.length && Strip(m.info) == ""
  }

  /** `_next_fence`. */
  function NextFence(fence: Option<Fence>, line: string): (Option<Fence>, bool) {
    match MarkerOf(line)
    case None => (fence, false)
    case Some(m) =>
      if fence.None? then (Some(m.fence), true)
      else (if Closes(m, fence.value) then None else fence, true)
  }

  /** What a line has after its two hash signs, if it has them. */
  function AfterHashes(line: string): Option<string> {
    match Indented(line)
    case None => None
    case Some(rest) => if |rest| >= 2 && rest[..2] == "##" then Some(rest[2..]) else None
  }

  function HeadingOf(line: string): Option<string> {
    match AfterHashes(line)
    case None => None
    case Some(rest) => if rest != "" && IsSpace(rest[0]) && Strip(rest) != "" then Some(Strip(rest)) else None
  }

  /** Two hash signs and something stuck to them: never a heading. */
  predicate IsLooseHeading(line: string) {
    AfterHashes(line).Some? && AfterHashes(line).value != ""
    && !IsSpace(AfterHashes(line).value[0]) && AfterHashes(line).value[0] != '#'
  }

  predicate IsTitle(line: string) {
    |line| >= 2 && line[0] == '#' && IsSpace(line[1]) && Strip(line[1..]) == "Changelog"
  }

  function Lines(text: string): (r: seq<string>)
    ensures |r| >= 1
  {
    Split(text, '\n')
  }

  /** The fence open after the first `n` lines. */
  function FenceAfter(lines: seq<string>, n: nat): Option<Fence>
    requires n <= |lines|
  {
    if n == 0 then None else NextFence(FenceAfter(lines, n - 1), lines[n - 1]).0
  }

  predicate IsFenceLine(line: string) {
    MarkerOf(line).Some?
  }

  /** Line `k` starts a section: a heading outside every fence. */
  predicate StartsSection(lines: seq<string>, k: nat)
    requires k < |lines|
  {
    !IsFenceLine(lines[k]) && FenceAfter(lines, k + 1).None? && HeadingOf(lines[k]).Some?
  }

  // ----- Sections -----

  datatype Raw = Raw(heading: string, lines: seq<string>)

  datatype Section = Section(heading: string, body: string)

  function WithLine(sections: seq<Raw>, line: string): seq<Raw> {
    if sections == [] then []
    else
      var n := |sections| - 1;
      sections[..n] + [Raw(sections[n].heading, sections[n].lines + [line])]
  }

  /** The sections of the first `n` lines: each heading outside a fence starts one, and every
      other line belongs to the one above it. */
  function SectionsOf(lines: seq<string>, n: nat): seq<Raw>
    requires n <= |lines|
  {
    if n == 0 then []
    else if StartsSection(lines, n - 1) then SectionsOf(lines, n - 1) + [Raw(HeadingOf(lines[n - 1]).value, [])]
    else WithLine(SectionsOf(lines, n - 1), lines[n - 1])
  }

  function Finished(sections: seq<Raw>): (r: seq<Section>)
    ensures |r| == |sections|
    ensures forall i :: 0 <= i < |r| ==> r[i] == Section(sections[i].heading, Strip(Join(sections[i].lines, '\n')))
  {
    seq(|sections|, i requires 0 <= i < |sections| => Section(sections[i].heading, Strip(Join(sections[i].lines, '\n'))))
  }

  function Parsed(text: string): seq<Section> {
    Finished(SectionsOf(Lines(text), |Lines(text)|))
  }

  /** `parse_changelog`. */
  method ParseChangelog(text: string) returns (parsed: seq<Section>)
    ensures parsed == Parsed(text)
  {
    var lines := Lines(text);
    var sections: seq<Raw> := [];
    var fence: Option<Fence> := None;
    for i := 0 to |lines|
      invariant fence == FenceAfter(lines, i) && sections == SectionsOf(lines, i)
    {
      var line := lines[i];
      var (next, isFenceLine) := NextFence(fence, line);
      fence := next;
      if isFenceLine {
        sections := WithLine(sections, line);
        continue;
      }
      var heading := if fence.None? then HeadingOf(line) else None;
      if heading.Some? {
        sections := sections + [Raw(heading.value, [])];
      } else {
        sections := WithLine(sections, line);
      }
    }
    parsed := Finished(sections);
  }

  // ----- Versions -----

  datatype Key = Key(major: nat, minor: nat, patch: nat)

  predicate Less(a: Key, b: Key) {
    a.major < b.major || (a.major == b.major && (a.minor < b.minor || (a.minor == b.minor && a.patch < b.patch)))
  }

  predicate IsNumeral(s: string) {
    s != "" && AllDigits(s)
  }

  /** `_version_key`. The pattern's end also matches before one final line feed. */
  function KeyOf(heading: string): Option<Key> {
    var core := if heading != "" && heading[|heading| - 1] == '\n' then DropLast(heading) else heading;
    if core == "" || core[0] != 'v' then None
    else
      var parts := Split(core[1..], '.');
      if |parts| != 3 || !IsNumeral(parts[0]) || !IsNumeral(parts[1]) || !IsNumeral(parts[2]) then None
      else Some(Key(Number(parts[0]), Number(parts[1]), Number(parts[2])))
  }

  predicate IsVersion(heading: string) {
    KeyOf(heading).Some?
  }

  // ----- Validation -----

  datatype Problem =
    | NeedsSpace(line: nat)
    | NeverClosed(line: nat)
    | BadTitle
    | NoSections
    | UnreleasedNotFirst
    | NotAVersion(heading: string)
    | Repeated(heading: string)
    | NotBelow(heading: string)
    | NoEntries(heading: string)
    | NoReleases

  /** The lines of the first `n` that were meant as headings and never will be. */
  function Loose(lines: seq<string>, n: nat): seq<Problem>
    requires n <= |lines|
  {
    if n == 0 then []
    else if !IsFenceLine(lines[n - 1]) && FenceAfter(lines, n).None? && IsLooseHeading(lines[n - 1])
    then Loose(lines, n - 1) + [NeedsSpace(n)]
    else Loose(lines, n - 1)
  }

  /** The line that opened the fence open after the first `n`. */
  function OpenedAt(lines: seq<string>, n: nat): nat
    requires n <= |lines|
  {
    if n == 0 then 0
    else if FenceAfter(lines, n - 1).None? && FenceAfter(lines, n).Some? then n
    else OpenedAt(lines, n - 1)
  }

  function LostHeadings(lines: seq<string>): seq<Problem> {
    Loose(lines, |lines|)
    + if FenceAfter(lines, |lines|).Some? then [NeverClosed(OpenedAt(lines, |lines|))] else []
  }

  /** `_lost_heading_problems`, the second scan over the file. */
  method LostHeadingProblems(text: string) returns (problems: seq<Problem>)
    ensures problems == LostHeadings(Lines(text))
  {
    var lines := Lines(text);
    problems := [];
    var fence: Option<Fence> := None;
    var openedAt := 0;
    for i := 0 to |lines|
      invariant fence == FenceAfter(lines, i) && problems == Loose(lines, i) && openedAt == OpenedAt(lines, i)
    {
      var wasOpen := fence.Some?;
      var (next, isFenceLine) := NextFence(fence, lines[i]);
      fence := next;
      if isFenceLine {
        if !wasOpen && fence.Some? {
          openedAt := i + 1;
        }
        continue;
      }
      if fence.None? && IsLooseHeading(lines[i]) {
        problems := problems + [NeedsSpace(i + 1)];
      }
    }
    if fence.Some? {
      problems := problems + [NeverClosed(openedAt)];
    }
  }

  /** What the loop over the sections has seen. */
  datatype Walk = Walk(seen: seq<string>, previous: Option<Key>, problems: seq<Problem>)

  function When(c: bool, p: Problem): seq<Problem> {
    if c then [p] else []
  }

  /** The loop's body for the section at `index`. */
  function WalkOne(w: Walk, index: nat, s: Section): Walk {
    if s.heading == UNRELEASED then w.(problems := w.problems + When(index != 0, UnreleasedNotFirst))
    else match KeyOf(s.heading)
      case None => w.(problems := w.problems + [NotAVersion(s.heading)])
      case Some(key) =>
        Walk(w.seen + [s.heading], Some(key),
             w.problems + When(s.heading in w.seen, Repeated(s.heading))
             + When(w.previous.Some? && !Less(key, w.previous.value), NotBelow(s.heading))
             + When(s.body == "", NoEntries(s.heading)))
  }

  function Walked(sections: seq<Section>, n: nat): Walk
    requires n <= |sections|
  {
    if n == 0 then Walk([], None, []) else WalkOne(Walked(sections, n - 1), n - 1, sections[n - 1])
  }

  function Problems(text: string): seq<Problem> {
    var lines := Lines(text);
    var sections := Parsed(text);
    var early := LostHeadings(lines) + When(!IsTitle(lines[0]), BadTitle);
    if sections == [] then early + [NoSections]
    else
      var w := Walked(sections, |sections|);
      early + w.problems + When(w.seen == [], NoReleases)
  }

  /** `validate`. */
  method Validate(text: string) returns (problems: seq<Problem>)
    ensures problems == Problems(text)
  {
    hide IsTitle, Lines;
    problems := LostHeadingProblems(text);
    var lines := Lines(text);
    if !IsTitle(lines[0]) {
      problems := problems + [BadTitle];
    }
    var sections := ParseChangelog(text);
    hide Lines, Parsed, LostHeadings, IsTitle, Walked;
    if sections == [] {
      return problems + [NoSections];
    }
    var walk := WalkSections(sections);
    problems := problems + walk.problems + When(walk.seen == [], NoReleases);
  }

  method WalkSections(sections: seq<Section>) returns (walk: Walk)
    ensures walk == Walked(sections, |sections|)
  {
    var seen: seq<string> := [];
    var previous: Option<Key> := None;
    var found: seq<Problem> := [];
    for i := 0 to |sections|
      invariant Walk(seen, previous, found) == Walked(sections, i)
    {
      hide KeyOf, Less, When;
      var s := sections[i];
      if s.heading == UNRELEASED {
        found := found + When(i != 0, UnreleasedNotFirst);
        continue;
      }
      var key := KeyOf(s.heading);
      if key.None? {
        found := found + [NotAVersion(s.heading)];
        continue;
      }
      found := found + When(s.heading in seen, Repeated(s.heading))
        + When(previous.Some? && !Less(key.value, previous.value), NotBelow(s.heading))
        + When(s.body == "", NoEntries(s.heading));
      seen := seen + [s.heading];
      previous := key;
    }
    walk := Walk(seen, previous, found);
  }

  // ----- What the release command reads -----

  datatype Entries = Entries(body: string) | Empty | Missing

  function FirstOf(sections: seq<Section>, tag: string): Entries {
    if sections == [] then Missing
    else if sections[0].heading == tag then (if sections[0].body == "" then Empty else Entries(sections[0].body))
    else FirstOf(sections[1..], tag)
  }

  /** `section_for`; `Empty` and `Missing` are its two errors. */
  method SectionFor(text: string, tag: string) returns (entries: Entries)
    ensures entries == FirstOf(Parsed(text), tag)
  {
    var sections := ParseChangelog(text);
    assert sections[0..] == sections;
    for i := 0 to |sections|
      invariant FirstOf(sections, tag) == FirstOf(sections[i..], tag)
    {
      assert sections[i..][0] == sections[i] && sections[i..][1..] == sections[i + 1..];
      if sections[i].heading == tag {
        return if sections[i].body == "" then Empty else Entries(sections[i].body);
      }
    }
    entries := Missing;
  }

  function VersionsOf(sections: seq<Section>): seq<string> {
    if sections == [] then []
    else
      var n := |sections| - 1;
      VersionsOf(sections[..n]) + if IsVersion(sections[n].heading) then [sections[n].heading] else []
  }

  /** `released_versions`. */
  function Released(text: string): seq<string> {
    VersionsOf(Parsed(text))
  }

  function IndexOf(versions: seq<string>, tag: string): (k: nat)
    requires tag in versions
    ensures k < |versions| && versions[k] == tag && forall j :: 0 <= j < k ==> versions[j] != tag
  {
    if versions[0] == tag then 0 else 1 + IndexOf(versions[1..], tag)
  }

  function FirstBelow(versions: seq<string>, key: Key, from: nat): Option<string>
    requires from <= |versions|
    decreases |versions| - from
  {
    if from == |versions| then None
    else if KeyOf(versions[from]).Some? && Less(KeyOf(versions[from]).value, key) then Some(versions[from])
    else FirstBelow(versions, key, from + 1)
  }

  function Previous(versions: seq<string>, tag: string): Option<string> {
    if tag in versions then
      var next := IndexOf(versions, tag) + 1;
      if next < |versions| then Some(versions[next]) else None
    else if KeyOf(tag).None? then None
    else FirstBelow(versions, KeyOf(tag).value, 0)
  }

  /** `previous_version`. */
  method PreviousVersion(text: string, tag: string) returns (previous: Option<string>)
    ensures previous == Previous(Released(text), tag)
  {
    var versions := Released(text);
    if tag in versions {
      var next := IndexOf(versions, tag) + 1;
      return if next < |versions| then Some(versions[next]) else None;
    }
    var key := KeyOf(tag);
    if key.None? {
      return None;
    }
    for i := 0 to |versions|
      invariant FirstBelow(versions, key.value, 0) == FirstBelow(versions, key.value, i)
    {
      var candidate := KeyOf(versions[i]);
      if candidate.Some? && Less(candidate.value, key.value) {
        return Some(versions[i]);
      }
    }
    previous := None;
  }

  // ----- What a valid changelog guarantees -----

  predicate Descending(versions: seq<string>) {
    && (forall i :: 0 <= i < |versions| ==> IsVersion(versions[i]))
    && (forall i, j :: 0 <= i < j < |versions| ==> Less(KeyOf(versions[j]).value, KeyOf(versions[i]).value))
  }

  predicate SoundSection(sections: seq<Section>, i: nat)
    requires i < |sections|
  {
    if sections[i].heading == UNRELEASED then i == 0 else IsVersion(sections[i].heading) && sections[i].body != ""
  }

  lemma UnreleasedIsNoVersion()
    ensures !IsVersion(UNRELEASED)
  {
  }

  lemma LessIsTransitive(a: Key, b: Key, c: Key)
    requires Less(a, b) && Less(b, c)
    ensures Less(a, c)
  {
  }

  lemma NothingAdded(a: seq<Problem>, b: seq<Problem>)
    requires a + b == []
    ensures a == [] && b == []
  {
    assert |a + b| == |a| + |b|;
  }

  /** A turn that reports nothing: what it says of the section. */
  lemma QuietTurn(w: Walk, index: nat, s: Section)
    requires WalkOne(w, index, s).problems == []
    ensures w.problems == []
    ensures if s.heading == UNRELEASED then index == 0 && WalkOne(w, index, s) == w
            else IsVersion(s.heading) && s.body != ""
                 && (w.previous.Some? ==> Less(KeyOf(s.heading).value, w.previous.value))
                 && WalkOne(w, index, s).seen == w.seen + [s.heading] && WalkOne(w, index, s).previous == KeyOf(s.heading)
  {
    hide KeyOf, Less;
    if s.heading == UNRELEASED {
      NothingAdded(w.problems, When(index != 0, UnreleasedNotFirst));
      assert w.problems + [] == w.problems;
    } else if KeyOf(s.heading).Some? {
      var a := When(s.heading in w.seen, Repeated(s.heading));
      var b := When(w.previous.Some? && !Less(KeyOf(s.heading).value, w.previous.value), NotBelow(s.heading));
      var c := When(s.body == "", NoEntries(s.heading));
      NothingAdded(w.problems + a + b, c);
      NothingAdded(w.problems + a, b);
      NothingAdded(w.problems, a);
    } else {
      NothingAdded(w.problems, [NotAVersion(s.heading)]);
    }
  }

  lemma DescendingSnoc(before: seq<string>, v: string)
    requires Descending(before) && IsVersion(v)
    requires before != [] ==> Less(KeyOf(v).value, KeyOf(before[|before| - 1]).value)
    ensures Descending(before + [v])
  {
    hide KeyOf, Less;
    forall i | 0 <= i < |before| ensures Less(KeyOf(v).value, KeyOf(before[i]).value) {
      if i < |before| - 1 {
        LessIsTransitive(KeyOf(v).value, KeyOf(before[|before| - 1]).value, KeyOf(before[i]).value);
      }
    }
  }

  lemma VersionsSnoc(sections: seq<Section>, n: nat)
    requires n < |sections|
    ensures VersionsOf(sections[..n + 1])
            == (if IsVersion(sections[n].heading) then VersionsOf(sections[..n]) + [sections[n].heading] else VersionsOf(sections[..n]))
  {
    hide KeyOf;
    assert sections[..n + 1][..n] == sections[..n];
    assert VersionsOf(sections[..n]) + [] == VersionsOf(sections[..n]);
  }

  /** A walk that reports nothing has seen sound sections only. */
  lemma {:induction false} QuietSections(sections: seq<Section>, n: nat, i: nat)
    requires i < n <= |sections| && Walked(sections, n).problems == []
    ensures SoundSection(sections, i)
    decreases n
  {
    QuietTurn(Walked(sections, n - 1), n - 1, sections[n - 1]);
    hide KeyOf, Less, WalkOne;
    if i < n - 1 {
      QuietSections(sections, n - 1, i);
    }
  }

  /** And versions in descending order. */
  lemma {:induction false} QuietWalk(sections: seq<Section>, n: nat)
    requires n <= |sections| && Walked(sections, n).problems == []
    ensures var w, versions := Walked(sections, n), VersionsOf(sections[..n]);
            && w.seen == versions && Descending(versions)
            && w.previous == (if versions == [] then None else KeyOf(versions[|versions| - 1]))
    decreases n
  {
    hide KeyOf, Less, WalkOne, When;
    if n == 0 {
      assert sections[..0] == [];
    } else {
      var w, s := Walked(sections, n - 1), sections[n - 1];
      assert Walked(sections, n) == WalkOne(w, n - 1, s);
      QuietTurn(w, n - 1, s);
      VersionsSnoc(sections, n - 1);
      UnreleasedIsNoVersion();
      hide *;
      QuietWalk(sections, n - 1);
      if s.heading != UNRELEASED {
        DescendingSnoc(VersionsOf(sections[..n - 1]), s.heading);
      }
    }
  }

  lemma QuietParts(text: string)
    requires Problems(text) == []
    ensures LostHeadings(Lines(text)) == [] && IsTitle(Lines(text)[0])
    ensures Parsed(text) != [] && Walked(Parsed(text), |Parsed(text)|).problems == []
    ensures Walked(Parsed(text), |Parsed(text)|).seen != []
  {
    hide Lines, Parsed, Walked, LostHeadings, IsTitle;
    var early := LostHeadings(Lines(text)) + When(!IsTitle(Lines(text)[0]), BadTitle);
    assert early == [];
  }

  /** If validation reports nothing, there is a release, the released versions are strictly
      descending, and each has a section of its own with something in it. */
  lemma ValidReleases(text: string)
    requires Problems(text) == []
    ensures Released(text) != [] && Descending(Released(text))
    ensures forall v :: v in Released(text) ==> FirstOf(Parsed(text), v).Entries? && FirstOf(Parsed(text), v).body != ""
  {
    QuietParts(text);
    var sections := Parsed(text);
    QuietWalk(sections, |sections|);
    assert sections[..|sections|] == sections;
    SoundBodies(sections);
    UnreleasedIsNoVersion();
    hide Parsed, Walked, Descending, Problems, KeyOf, VersionsOf, FirstOf, SoundSection;
    forall v | v in Released(text) ensures FirstOf(sections, v).Entries? && FirstOf(sections, v).body != "" {
      VersionHasSection(sections, v);
      FirstIsSound(sections, v);
    }
  }

  lemma SoundBodies(sections: seq<Section>)
    requires Walked(sections, |sections|).problems == []
    ensures forall i :: 0 <= i < |sections| ==> sections[i].heading == UNRELEASED || sections[i].body != ""
  {
    hide KeyOf, Walked;
    forall i | 0 <= i < |sections| ensures sections[i].heading == UNRELEASED || sections[i].body != "" {
      QuietSections(sections, |sections|, i);
    }
  }

  lemma {:induction false} VersionHasSection(sections: seq<Section>, v: string)
    requires v in VersionsOf(sections)
    ensures IsVersion(v) && exists i :: 0 <= i < |sections| && sections[i].heading == v
    decreases |sections|
  {
    var n := |sections| - 1;
    hide KeyOf;
    if v in VersionsOf(sections[..n]) {
      VersionHasSection(sections[..n], v);
      var i :| 0 <= i < n && sections[..n][i].heading == v;
      assert sections[i].heading == v;
    }
  }

  lemma {:induction false} FirstIsSound(sections: seq<Section>, v: string)
    requires forall i :: 0 <= i < |sections| ==> sections[i].heading == UNRELEASED || sections[i].body != ""
    requires v != UNRELEASED && exists i :: 0 <= i < |sections| && sections[i].heading == v
    ensures FirstOf(sections, v).Entries? && FirstOf(sections, v).body != ""
    ensures exists i :: 0 <= i < |sections| && sections[i] == Section(v, FirstOf(sections, v).body)
    decreases |sections|
  {
    if sections[0].heading != v {
      var i :| 0 <= i < |sections| && sections[i].heading == v;
      assert sections[1..][i - 1].heading == v;
      FirstIsSound(sections[1..], v);
      var j :| 0 <= j < |sections[1..]| && sections[1..][j] == Section(v, FirstOf(sections[1..], v).body);
      assert sections[j + 1] == sections[1..][j];
    } else {
      assert sections[0] == Section(v, FirstOf(sections, v).body);
    }
  }

  /** `r` is the greatest of the versions strictly below `key`. */
  predicate IsGreatestBelow(versions: seq<string>, key: Key, r: Option<string>) {
    match r
    case None => forall v :: v in versions && IsVersion(v) ==> !Less(KeyOf(v).value, key)
    case Some(best) =>
      && best in versions && IsVersion(best) && Less(KeyOf(best).value, key)
      && forall v :: v in versions && IsVersion(v) && Less(KeyOf(v).value, key) ==> v == best || Less(KeyOf(v).value, KeyOf(best).value)
  }

  lemma FirstBelowIsGreatest(versions: seq<string>, key: Key, from: nat)
    requires Descending(versions) && from <= |versions|
    requires forall i :: 0 <= i < from ==> !Less(KeyOf(versions[i]).value, key)
    ensures IsGreatestBelow(versions, key, FirstBelow(versions, key, from))
    decreases |versions| - from
  {
    hide KeyOf;
    if from < |versions| {
      if Less(KeyOf(versions[from]).value, key) {
        forall v | v in versions && Less(KeyOf(v).value, key) ensures v == versions[from] || Less(KeyOf(v).value, KeyOf(versions[from]).value) {
          var i :| 0 <= i < |versions| && versions[i] == v;
        }
      } else {
        FirstBelowIsGreatest(versions, key, from + 1);
      }
    }
  }

  lemma LessIsIrreflexive(a: Key, b: Key)
    requires Less(a, b)
    ensures !Less(b, a) && a != b
  {
  }

  lemma AfterIsGreatest(versions: seq<string>, tag: string)
    requires Descending(versions) && tag in versions
    ensures IsGreatestBelow(versions, KeyOf(tag).value, Previous(versions, tag))
  {
    var at := IndexOf(versions, tag);
    var key := KeyOf(tag).value;
    hide KeyOf, Less;
    forall i | 0 <= i <= at ensures !Less(KeyOf(versions[i]).value, key) {
      if i < at {
        LessIsIrreflexive(key, KeyOf(versions[i]).value);
      } else if Less(key, key) {
        LessIsIrreflexive(key, key);
      }
    }
    if at + 1 < |versions| {
      var best := versions[at + 1];
      forall v | v in versions && IsVersion(v) && Less(KeyOf(v).value, key) ensures v == best || Less(KeyOf(v).value, KeyOf(best).value) {
        var i :| 0 <= i < |versions| && versions[i] == v;
      }
    } else {
      forall v | v in versions && IsVersion(v) ensures !Less(KeyOf(v).value, key) {
        var i :| 0 <= i < |versions| && versions[i] == v;
      }
    }
  }

  /** If validation reports nothing, the version before any tag that is a version, listed or not,
      is the greatest released one strictly below it; a tag that is none has none before it. */
  lemma ValidPrevious(text: string, tag: string)
    requires Problems(text) == []
    ensures IsVersion(tag) ==> IsGreatestBelow(Released(text), KeyOf(tag).value, Previous(Released(text), tag))
    ensures !IsVersion(tag) ==> Previous(Released(text), tag).None?
  {
    ValidReleases(text);
    var versions := Released(text);
    hide Problems, Released, KeyOf;
    if tag in versions {
      var i :| 0 <= i < |versions| && versions[i] == tag;
      AfterIsGreatest(versions, tag);
    } else if IsVersion(tag) {
      FirstBelowIsGreatest(versions, KeyOf(tag).value, 0);
    }
  }

  /** If validation reports nothing, no fence is left open and no line outside a fence looks like
      a heading without being one. */
  lemma ValidFences(text: string, k: nat)
    requires Problems(text) == [] && k < |Lines(text)|
    ensures FenceAfter(Lines(text), |Lines(text)|).None?
    ensures FenceAfter(Lines(text), k + 1).None? && !IsFenceLine(Lines(text)[k]) ==> !IsLooseHeading(Lines(text)[k])
  {
    QuietParts(text);
    var lines := Lines(text);
    hide Problems, Lines, Parsed, Walked;
    LooseFinds(lines, |lines|, k);
  }

  lemma {:induction false} LooseFinds(lines: seq<string>, n: nat, k: nat)
    requires k < n <= |lines| && Loose(lines, n) == []
    ensures FenceAfter(lines, k + 1).None? && !IsFenceLine(lines[k]) ==> !IsLooseHeading(lines[k])
    decreases n
  {
    hide FenceAfter, IsFenceLine, IsLooseHeading;
    if k < n - 1 {
      LooseFinds(lines, n - 1, k);
    }
  }

  /** The scan that parses and the scan that looks for lost headings, each with the fence it
      carries from line to line. */
  datatype Scan<T> = Scan(fence: Option<Fence>, found: T)

  function ParseScan(lines: seq<string>, n: nat): Scan<seq<Raw>>
    requires n <= |lines|
  {
    if n == 0 then Scan(None, [])
    else
      var s := ParseScan(lines, n - 1);
      var (fence, isFenceLine) := NextFence(s.fence, lines[n - 1]);
      var heading := if fence.None? then HeadingOf(lines[n - 1]) else None;
      Scan(fence, if !isFenceLine && heading.Some? then s.found + [Raw(heading.value, [])] else WithLine(s.found, lines[n - 1]))
  }

  function LostScan(lines: seq<string>, n: nat): Scan<seq<Problem>>
    requires n <= |lines|
  {
    if n == 0 then Scan(None, [])
    else
      var s := LostScan(lines, n - 1);
      var (fence, isFenceLine) := NextFence(s.fence, lines[n - 1]);
      Scan(fence, if !isFenceLine && fence.None? && IsLooseHeading(lines[n - 1]) then s.found + [NeedsSpace(n)] else s.found)
  }

  lemma {:induction false} ParseScanIs(lines: seq<string>, n: nat)
    requires n <= |lines|
    ensures ParseScan(lines, n) == Scan(FenceAfter(lines, n), SectionsOf(lines, n))
    decreases n
  {
    if n > 0 {
      ParseScanIs(lines, n - 1);
      hide HeadingOf, MarkerOf, WithLine, Closes;
    }
  }

  lemma {:induction false} LostScanIs(lines: seq<string>, n: nat)
    requires n <= |lines|
    ensures LostScan(lines, n) == Scan(FenceAfter(lines, n), Loose(lines, n))
    decreases n
  {
    if n > 0 {
      LostScanIs(lines, n - 1);
      hide IsLooseHeading, MarkerOf, Closes;
    }
  }

  /** Both scans hold the same fence after every line, so they speak of the same document. */
  lemma ScansAgree(lines: seq<string>, n: nat)
    requires n <= |lines|
    ensures ParseScan(lines, n).fence == LostScan(lines, n).fence == FenceAfter(lines, n)
    ensures ParseScan(lines, n).found == SectionsOf(lines, n) && LostScan(lines, n).found == Loose(lines, n)
  {
    ParseScanIs(lines, n);
    LostScanIs(lines, n);
    hide *;
  }

  lemma HeadingsStay(sections: seq<Raw>, line: string, heading: string)
    ensures HeadingsOf(WithLine(sections, line)) == HeadingsOf(sections)
    ensures HeadingsOf(sections + [Raw(heading, [])]) == HeadingsOf(sections) + [heading]
  {
  }

  /** No heading is lost to the parse: there is a section for each line that starts one, in order. */
  lemma {:induction false} HeadingsAreKept(lines: seq<string>, n: nat)
    requires n <= |lines|
    ensures HeadingsOf(SectionsOf(lines, n)) == HeadingLines(lines, n)
    decreases n
  {
    if n > 0 {
      HeadingsAreKept(lines, n - 1);
      var heading := if StartsSection(lines, n - 1) then HeadingOf(lines[n - 1]).value else "";
      HeadingsStay(SectionsOf(lines, n - 1), lines[n - 1], heading);
      assert HeadingLines(lines, n - 1) + [] == HeadingLines(lines, n - 1);
      hide HeadingOf, WithLine, HeadingsOf, FenceAfter, IsFenceLine;
    }
  }

  function HeadingsOf(sections: seq<Raw>): (r: seq<string>)
    ensures |r| == |sections| && forall i :: 0 <= i < |r| ==> r[i] == sections[i].heading
  {
    seq(|sections|, i requires 0 <= i < |sections| => sections[i].heading)
  }

  function HeadingLines(lines: seq<string>, n: nat): seq<string>
    requires n <= |lines|
  {
    if n == 0 then []
    else HeadingLines(lines, n - 1) + if StartsSection(lines, n - 1) then [HeadingOf(lines[n - 1]).value] else []
  }
}
