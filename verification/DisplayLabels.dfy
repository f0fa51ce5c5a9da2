/** How an id's fragment is shown (`backends/base.py`, `_prettify` and `_squashed`), for letters
    and digits of ASCII; other characters count as neither. */
module DisplayLabels {
  import opened DisplayNames
  import opened Options
  import opened Strings

  predicate IsLowerCase(c: char) {
    'a' <= c <= 'z'
  }

  function Upper(c: char): char {
    if IsLowerCase(c) then ((c as int) - 32) as char else c
  }

  function Lower(c: char): char {
    if 'A' <= c <= 'Z' then ((c as int) + 32) as char else c
  }

  function UpperAll(s: string): (r: string)
    ensures |r| == |s|
  {
    seq(|s|, i requires 0 <= i < |s| => Upper(s[i]))
  }

  predicate IsAlnum(c: char) {
    IsDigit(c) || IsLowerCase(Lower(c))
  }

  /** `_squashed`. */
  function Squashed(s: string): string {
    if s == "" then ""
    else Squashed(DropLast(s)) + if IsAlnum(s[|s| - 1]) then [Lower(s[|s| - 1])] else ""
  }

  // ----- One word -----

  const ACRONYMS := map[
    "ocr" := "OCR", "sdxl" := "SDXL", "lcm" := "LCM", "svd" := "SVD", "sam" := "SAM", "rle" := "RLE", "svg" := "SVG",
    "mlsd" := "MLSD", "hed" := "HED", "pidi" := "PiDi", "teed" := "TEED", "bbox" := "BBox", "lora" := "LoRA",
    "controlnet" := "ControlNet", "flf2v" := "FLF2V", "srpo" := "SRPO", "rf" := "RF", "sd" := "SD", "ai" := "AI",
    "hd" := "HD", "api" := "API", "nsfw" := "NSFW", "3d" := "3D", "2d" := "2D"]

  const CONNECTORS := {"to", "with", "and", "of", "for", "in", "on", "the", "a", "an", "from", "by"}

  predicate IsResolution(word: string) {
    |word| >= 2 && AllDigits(DropLast(word)) && word[|word| - 1] == 'p'
  }

  predicate AllLowerCase(s: string) {
    forall i :: 0 <= i < |s| ==> IsLowerCase(s[i])
  }

  predicate AllVersion(s: string) {
    s != "" && forall i :: 0 <= i < |s| ==> IsDigit(s[i]) || s[i] == '.'
  }

  /** Up to two letters, digits and dots, up to three letters. */
  predicate IsVersion(word: string) {
    exists a, b :: 0 <= a <= 2 && a <= b <= |word| && |word| - b <= 3 && IsVersionAt(word, a, b)
  }

  predicate IsVersionAt(word: string, a: int, b: int)
    requires 0 <= a <= b <= |word|
  {
    AllLowerCase(word[..a]) && AllVersion(word[a..b]) && AllLowerCase(word[b..])
  }

  function PrettyWord(word: string, first: bool): string
    requires word != ""
  {
    if word in ACRONYMS then ACRONYMS[word]
    else if IsResolution(word) then word
    else if IsVersion(word) then UpperAll(word)
    else if word in CONNECTORS && !first then word
    else [Upper(word[0])] + word[1..]
  }

  // ----- The whole fragment -----

  predicate AreBlank(words: seq<string>, n: nat)
    requires n <= |words|
  {
    forall k :: 0 <= k < n ==> words[k] == ""
  }

  /** The first `n` words of a segment, the empty ones dropped. */
  function PrettyWords(words: seq<string>, n: nat, first: bool): seq<string>
    requires n <= |words|
  {
    if n == 0 then []
    else
      PrettyWords(words, n - 1, first)
      + if words[n - 1] == "" then [] else [PrettyWord(words[n - 1], first && AreBlank(words, n - 1))]
  }

  predicate Unstarted(segments: seq<string>, n: nat)
    requires n <= |segments|
  {
    forall k :: 0 <= k < n ==> AreBlank(Split(segments[k], '-'), |Split(segments[k], '-')|)
  }

  function PrettySegment(segment: string, first: bool): string {
    Join(PrettyWords(Split(segment, '-'), |Split(segment, '-')|, first), '-')
  }

  function PrettySegments(segments: seq<string>, n: nat): (r: seq<string>)
    requires n <= |segments|
    ensures |r| == n
  {
    if n == 0 then [] else PrettySegments(segments, n - 1) + [PrettySegment(segments[n - 1], Unstarted(segments, n - 1))]
  }

  function NonEmpty(parts: seq<string>): seq<string> {
    if parts == [] then []
    else NonEmpty(parts[..|parts| - 1]) + if parts[|parts| - 1] == "" then [] else [parts[|parts| - 1]]
  }

  function Pretty(suffix: string): string {
    Join(NonEmpty(PrettySegments(Split(suffix, '/'), |Split(suffix, '/')|)), ' ')
  }

  /** `_prettify`. */
  method Prettify(suffix: string) returns (shown: string)
    ensures shown == Pretty(suffix)
  {
    hide PrettySegment, AreBlank, Split, Join, NonEmpty;
    var parts := Split(suffix, '/');
    var segments: seq<string>, first := [], true;
    for i := 0 to |parts|
      invariant segments == PrettySegments(parts, i) && first == Unstarted(parts, i)
    {
      var segment, untouched := PrettifySegment(parts[i], first);
      assert Unstarted(parts, i + 1) <==> Unstarted(parts, i) && AreBlank(Split(parts[i], '-'), |Split(parts[i], '-')|);
      segments := segments + [segment];
      first := untouched;
    }
    shown := Join(NonEmpty(segments), ' ');
  }

  /** The loop over the words of one segment; `untouched` while no word of the label is written. */
  method PrettifySegment(segment: string, first: bool) returns (shown: string, untouched: bool)
    ensures shown == PrettySegment(segment, first)
    ensures untouched == (first && AreBlank(Split(segment, '-'), |Split(segment, '-')|))
  {
    hide PrettyWord, Split, Join;
    var pieces := Split(segment, '-');
    var words: seq<string> := [];
    untouched := first;
    for k := 0 to |pieces|
      invariant words == PrettyWords(pieces, k, first) && untouched == (first && AreBlank(pieces, k))
    {
      if pieces[k] == "" {
        continue;
      }
      words := words + [PrettyWord(pieces[k], untouched)];
      untouched := false;
    }
    shown := Join(words, '-');
  }

  lemma NoVersion(word: string)
    requires forall i :: 0 <= i < |word| ==> IsLowerCase(word[i])
    ensures !IsVersion(word)
  {
    forall a, b | 0 <= a <= b <= |word| ensures !AllVersion(word[a..b]) {
      if a < b {
        assert word[a..b][0] == word[a];
      }
    }
  }

  lemma VersionAt(word: string, a: nat, b: nat)
    requires a <= 2 && a <= b <= |word| && |word| - b <= 3 && IsVersionAt(word, a, b)
    ensures IsVersion(word)
  {
  }

  lemma WordsOf(a: string, b: string, c: string)
    requires '-' !in a && '-' !in b && '-' !in c
    ensures Split(a + "-" + b, '-') == [a, b] && Split(a + "-" + b + "-" + c, '-') == [a, b, c]
  {
    SplitNone(a, '-');
    SplitNone(b, '-');
    SplitNone(c, '-');
    SplitTwo(a, b, '-');
    SplitTwo(a + "-" + b, c, '-');
    hide Split;
  }

  lemma WordsInTurn(a: string, b: string, c: string, first: bool)
    requires a != "" && b != "" && c != ""
    ensures PrettyWords([a, b], 2, first) == [PrettyWord(a, first), PrettyWord(b, false)]
    ensures PrettyWords([a, b, c], 3, first) == [PrettyWord(a, first), PrettyWord(b, false), PrettyWord(c, false)]
  {
    hide PrettyWord;
    var two, three := [a, b], [a, b, c];
    assert two[0] == a && three[0] == a && three[1] == b;
    assert PrettyWords(two, 1, first) == [PrettyWord(a, first)] && PrettyWords(three, 1, first) == [PrettyWord(a, first)];
    assert PrettyWords(three, 2, first) == [PrettyWord(a, first), PrettyWord(b, false)];
  }

  lemma NoAcronym(word: string)
    requires word in {"v2.2", "a14b", "text", "to", "video"}
    ensures word !in ACRONYMS
  {
  }

  lemma WordsOfTheExample()
    ensures PrettyWord("v2.2", true) == "V2.2" && PrettyWord("a14b", false) == "A14B"
    ensures PrettyWord("text", false) == "Text" && PrettyWord("to", false) == "to" && PrettyWord("video", false) == "Video"
  {
    hide ACRONYMS, IsVersion;
    NoAcronym("v2.2");
    NoAcronym("a14b");
    NoAcronym("text");
    NoAcronym("to");
    NoAcronym("video");
    VersionAt("v2.2", 1, 4);
    VersionAt("a14b", 1, 3);
    assert UpperAll("v2.2") == "V2.2" && UpperAll("a14b") == "A14B";
    NoVersion("text");
    NoVersion("to");
    NoVersion("video");
  }

  /** The documented example. */
  lemma ExampleIsPretty()
    ensures Pretty("v2.2-a14b" + "/" + "text-to-video") == "V2.2-A14B Text-to-Video"
  {
    hide *;
    WordsOfTheExample();
    var one, two := "v2.2" + "-" + "a14b", "text" + "-" + "to" + "-" + "video";
    assert one == "v2.2-a14b" && two == "text-to-video";
    WordsOf("v2.2", "a14b", "b");
    WordsOf("text", "to", "video");
    WordsInTurn("v2.2", "a14b", "b", true);
    WordsInTurn("text", "to", "video", false);
    SplitNone(one, '/');
    SplitNone(two, '/');
    SplitTwo(one, two, '/');
    TwoSegments(one, two, ["v2.2", "a14b"], ["text", "to", "video"]);
    JoinThree("V2.2", "A14B", "", '-');
    JoinThree("Text", "to", "Video", '-');
    assert "V2.2" + "-" + "A14B" == "V2.2-A14B";
    assert "Text" + "-" + "to" + "-" + "Video" == "Text-to-Video";
    assert "V2.2-A14B" + " " + "Text-to-Video" == "V2.2-A14B Text-to-Video";
  }

  lemma SegmentsInTurn(one: string, two: string)
    requires !AreBlank(Split(one, '-'), |Split(one, '-')|)
    ensures PrettySegments([one, two], 2) == [PrettySegment(one, true), PrettySegment(two, false)]
  {
    var segments := [one, two];
    assert segments[0] == one && segments[1] == two && Unstarted(segments, 0) && !Unstarted(segments, 1);
    hide PrettySegment, Split, AreBlank, Unstarted;
    assert PrettySegments(segments, 0) == [];
    assert PrettySegments(segments, 1) == [] + [PrettySegment(one, true)];
    assert PrettySegments(segments, 2) == PrettySegments(segments, 1) + [PrettySegment(two, false)];
  }

  lemma PrettyOf(suffix: string, parts: seq<string>)
    requires Split(suffix, '/') == parts
    ensures Pretty(suffix) == Join(NonEmpty(PrettySegments(parts, |parts|)), ' ')
  {
  }

  lemma SegmentOf(segment: string, words: seq<string>, first: bool)
    requires Split(segment, '-') == words
    ensures PrettySegment(segment, first) == Join(PrettyWords(words, |words|, first), '-')
  {
  }

  lemma HasWord(words: seq<string>)
    requires words != [] && words[0] != ""
    ensures !AreBlank(words, |words|)
  {
  }

  /** A fragment of two segments, the first with a word in it. */
  lemma TwoSegments(one: string, two: string, words: seq<string>, more: seq<string>)
    requires Split(one + "/" + two, '/') == [one, two] && Split(one, '-') == words && Split(two, '-') == more
    requires words != [] && words[0] != ""
    ensures var a, b := Join(PrettyWords(words, |words|, true), '-'), Join(PrettyWords(more, |more|, false), '-');
            a != "" && b != "" ==> Pretty(one + "/" + two) == a + " " + b
  {
    hide *;
    PrettyOf(one + "/" + two, [one, two]);
    SegmentOf(one, words, true);
    SegmentOf(two, more, false);
    HasWord(words);
    SegmentsInTurn(one, two);
    var a, b := PrettySegment(one, true), PrettySegment(two, false);
    if a != "" && b != "" {
      KeepBoth(a, b);
      JoinThree(a, b, "", ' ');
    }
  }

  lemma KeepBoth(a: string, b: string)
    requires a != "" && b != ""
    ensures NonEmpty([a, b]) == [a, b]
  {
    assert [a, b][..1] == [a] && [a][..0] == [];
    assert NonEmpty([a]) == [a];
  }

  // ----- Only case and separators change -----

  lemma SquashedSnoc(a: string, c: char)
    ensures Squashed(a + [c]) == Squashed(a) + if IsAlnum(c) then [Lower(c)] else ""
  {
    assert DropLast(a + [c]) == a;
    hide IsAlnum, Lower;
  }

  lemma {:induction false} SquashedApp(a: string, b: string)
    ensures Squashed(a + b) == Squashed(a) + Squashed(b)
    decreases |b|
  {
    hide Squashed, IsAlnum, Lower;
    if b == "" {
      assert a + b == a;
      assert Squashed("") == "" by {
        NothingSquashed();
      }
    } else {
      var front, c := b[..|b| - 1], b[|b| - 1];
      SquashedApp(a, front);
      SquashedSnoc(a + front, c);
      SquashedSnoc(front, c);
      assert a + b == a + front + [c] && b == front + [c];
    }
  }

  lemma NothingSquashed()
    ensures Squashed("") == "" && SquashedAll([]) == ""
  {
  }

  lemma {:induction false} SameSquash(a: string, b: string)
    requires |a| == |b| && forall i :: 0 <= i < |a| ==> Lower(a[i]) == Lower(b[i])
    ensures Squashed(a) == Squashed(b)
    decreases |a|
  {
    if a != "" {
      SameSquash(DropLast(a), DropLast(b));
      assert IsAlnum(a[|a| - 1]) <==> IsAlnum(b[|b| - 1]);
    }
  }

  lemma AcronymsAreWords(word: string)
    requires word in ACRONYMS
    ensures |ACRONYMS[word]| == |word| && forall i :: 0 <= i < |word| ==> Lower(ACRONYMS[word][i]) == word[i]
  {
  }

  lemma WordKeepsLetters(word: string, first: bool)
    requires word != ""
    ensures Squashed(PrettyWord(word, first)) == Squashed(word)
  {
    if word in ACRONYMS {
      AcronymsAreWords(word);
    }
    SameSquash(PrettyWord(word, first), word);
  }

  /** Of a single character: a digit or a small letter as it is, a capital one small, all else gone.
      With `SquashedApp` that is every text. */
  lemma SquashedOne(c: char)
    ensures Squashed([c]) == if '0' <= c <= '9' || 'a' <= c <= 'z' then [c]
                             else if 'A' <= c <= 'Z' then [((c as int) + 32) as char]
                             else ""
  {
    SquashedSnoc("", c);
    assert "" + [c] == [c];
  }

  /** `_RESOLUTION_TOKEN`: digits and a `p`. */
  lemma ResolutionsExactly(word: string)
    ensures IsResolution(word) <==> exists digits :: digits != "" && AllDigits(digits) && word == digits + "p"
  {
    if IsResolution(word) {
      assert word == DropLast(word) + "p";
    }
    if digits :| digits != "" && AllDigits(digits) && word == digits + "p" {
      assert DropLast(word) == digits;
    }
  }

  /** Up to two small letters, digits and dots, up to three small letters. */
  predicate IsVersionText(word: string, a: string, b: string, c: string) {
    && |a| <= 2 && |c| <= 3 && b != "" && word == a + b + c
    && (forall x :: x in a || x in c ==> 'a' <= x <= 'z') && (forall x :: x in b ==> '0' <= x <= '9' || x == '.')
  }

  /** `_VERSION_TOKEN`. */
  lemma VersionsExactly(word: string)
    ensures IsVersion(word) <==> exists a, b, c :: IsVersionText(word, a, b, c)
  {
    if IsVersion(word) {
      var i, j :| 0 <= i <= 2 && i <= j <= |word| && |word| - j <= 3 && IsVersionAt(word, i, j);
      assert IsVersionText(word, word[..i], word[i..j], word[j..]);
    }
    if a, b, c :| IsVersionText(word, a, b, c) {
      assert word[..|a|] == a && word[|a|..|a| + |b|] == b && word[|a| + |b|..] == c;
      assert forall i :: 0 <= i < |a| ==> a[i] in a;
      assert forall i :: 0 <= i < |b| ==> b[i] in b;
      assert forall i :: 0 <= i < |c| ==> c[i] in c;
      assert IsVersionAt(word, |a|, |a| + |b|);
    }
  }

  function SquashedAll(parts: seq<string>): string {
    if parts == [] then "" else SquashedAll(parts[..|parts| - 1]) + Squashed(parts[|parts| - 1])
  }

  lemma SquashedAllSnoc(parts: seq<string>, part: string)
    ensures SquashedAll(parts + [part]) == SquashedAll(parts) + Squashed(part)
  {
    assert (parts + [part])[..|parts|] == parts;
    hide Squashed;
  }

  lemma {:induction false} SquashedCons(part: string, parts: seq<string>)
    ensures SquashedAll([part] + parts) == Squashed(part) + SquashedAll(parts)
    decreases |parts|
  {
    hide Squashed;
    if parts == [] {
      assert [part] + parts == [part] && [part][..0] == [];
    } else {
      assert ([part] + parts)[..|parts|] == [part] + parts[..|parts| - 1];
      SquashedCons(part, parts[..|parts| - 1]);
    }
  }

  lemma {:induction false} SquashedJoin(parts: seq<string>, separator: char)
    requires !IsAlnum(separator)
    ensures Squashed(Join(parts, separator)) == SquashedAll(parts)
    decreases |parts|
  {
    if |parts| == 0 {
      NothingSquashed();
    } else if |parts| == 1 {
      SquashedAllSnoc([], parts[0]);
      assert [] + [parts[0]] == parts;
    } else {
      hide Squashed, SquashedAll, IsAlnum;
      SquashedJoin(parts[1..], separator);
      SquashedApp(parts[0] + [separator], Join(parts[1..], separator));
      SquashedSnoc(parts[0], separator);
      SquashedCons(parts[0], parts[1..]);
      assert parts == [parts[0]] + parts[1..];
    }
  }

  lemma {:induction false} SquashedNonEmpty(parts: seq<string>)
    ensures SquashedAll(NonEmpty(parts)) == SquashedAll(parts)
    decreases |parts|
  {
    hide Squashed, SquashedAll;
    if parts != [] {
      var front, last := parts[..|parts| - 1], parts[|parts| - 1];
      assert parts == front + [last];
      SquashedNonEmpty(front);
      SquashedAllSnoc(front, last);
      SquashedAllSnoc(NonEmpty(front), last);
      NothingSquashed();
      assert last == "" ==> NonEmpty(parts) == NonEmpty(front) && SquashedAll(front) + "" == SquashedAll(front);
    }
  }

  lemma {:induction false} WordsKeepLetters(words: seq<string>, n: nat, first: bool)
    requires n <= |words|
    ensures SquashedAll(PrettyWords(words, n, first)) == SquashedAll(words[..n])
    decreases n
  {
    hide PrettyWord, Squashed, SquashedAll, AreBlank;
    if n > 0 {
      var word, before := words[n - 1], PrettyWords(words, n - 1, first);
      WordsKeepLetters(words, n - 1, first);
      assert words[..n] == words[..n - 1] + [word];
      SquashedAllSnoc(words[..n - 1], word);
      NothingSquashed();
      if word != "" {
        var shown := PrettyWord(word, first && AreBlank(words, n - 1));
        WordKeepsLetters(word, first && AreBlank(words, n - 1));
        SquashedAllSnoc(before, shown);
      } else {
        assert PrettyWords(words, n, first) == before && SquashedAll(before) + "" == SquashedAll(before);
      }
    }
  }

  lemma SegmentKeepsLetters(segment: string, first: bool)
    ensures Squashed(PrettySegment(segment, first)) == Squashed(segment)
  {
    var words := Split(segment, '-');
    WordsKeepLetters(words, |words|, first);
    assert words[..|words|] == words;
    SquashedJoin(PrettyWords(words, |words|, first), '-');
    SquashedJoin(words, '-');
    JoinSplit(segment, '-');
  }

  lemma {:induction false} SegmentsKeepLetters(segments: seq<string>, n: nat)
    requires n <= |segments|
    ensures SquashedAll(PrettySegments(segments, n)) == SquashedAll(segments[..n])
    decreases n
  {
    hide PrettySegment;
    if n > 0 {
      SegmentsKeepLetters(segments, n - 1);
      SegmentKeepsLetters(segments[n - 1], Unstarted(segments, n - 1));
      assert segments[..n][..n - 1] == segments[..n - 1];
      assert PrettySegments(segments, n)[..n - 1] == PrettySegments(segments, n - 1);
    }
  }

  /** Prettifying a fragment changes nothing but case and separators. */
  lemma PrettyKeepsLetters(suffix: string)
    ensures Squashed(Pretty(suffix)) == Squashed(suffix)
  {
    var segments := Split(suffix, '/');
    SegmentsKeepLetters(segments, |segments|);
    assert segments[..|segments|] == segments;
    SquashedNonEmpty(PrettySegments(segments, |segments|));
    SquashedJoin(NonEmpty(PrettySegments(segments, |segments|)), ' ');
    SquashedJoin(segments, '/');
    JoinSplit(suffix, '/');
  }

  // ----- Titles -----

  const SPELLING := Spelling(Pretty, Squashed)

  /** An entry's own part of its id. */
  function Suffix(entries: seq<Entry>, pinned: set<string>, i: nat): string
    requires i < |entries| && entries[i].id !in pinned
  {
    Join(Fragment(entries, pinned, entries[i].name, i), '/')
  }

  /** The entry may keep the bare title: its own part of the id says no more. */
  predicate SaysNoMore(entries: seq<Entry>, pinned: set<string>, i: nat)
    requires i < |entries| && entries[i].id !in pinned
  {
    Pretty(Suffix(entries, pinned, i)) == "" || Squashed(Suffix(entries, pinned, i)) == Squashed(entries[i].name)
  }

  /** Entries of one title whose own parts differ in letters or digits are told apart, except that
      where nothing is pinned two of them may both keep the title, one with nothing of its own and
      one that repeats it. */
  lemma DifferentLettersTellApart(entries: seq<Entry>, pinned: set<string>, i: nat, j: nat)
    requires i < |entries| && j < |entries| && i != j && entries[i].name == entries[j].name != ""
    requires entries[i].id !in pinned && entries[j].id !in pinned
    requires Squashed(Suffix(entries, pinned, i)) != Squashed(Suffix(entries, pinned, j))
    ensures NewEntry(entries, pinned, SPELLING, i).name == NewEntry(entries, pinned, SPELLING, j).name
            <==> !HasPinned(entries, pinned, entries[i].name) && SaysNoMore(entries, pinned, i) && SaysNoMore(entries, pinned, j)
  {
    PrettyKeepsLetters(Suffix(entries, pinned, i));
    PrettyKeepsLetters(Suffix(entries, pinned, j));
    AlikeExactlyWhen(entries, pinned, SPELLING, i, j);
    hide NewEntry, Pretty, Squashed, Fragment, HasPinned;
  }

  lemma NothingShown()
    ensures Pretty("") == ""
  {
    assert Split("", '/') == [""] && Split("", '-') == [""];
    assert PrettyWords([""], 1, true) == [];
    assert PrettySegments([""], 1) == [""];
    assert NonEmpty([""]) == [];
  }

  /** It happens, in every family: an endpoint with a title and one below it that repeats the title
      both keep it, though their ids differ. */
  lemma TwoKeepTheTitle(base: string, tail: string, name: string)
    requires name != "" && Squashed(tail) == Squashed(name)
    ensures var entries := [Entry(base, name), Entry(base + "/" + tail, name)];
            && entries[0].id != entries[1].id
            && NewEntry(entries, {}, SPELLING, 0).name == name && NewEntry(entries, {}, SPELLING, 1).name == name
  {
    var entries := [Entry(base, name), Entry(base + "/" + tail, name)];
    assert Collides(entries, 0) && Collides(entries, 1) by {
      assert entries[1].name == entries[0].name;
    }
    OwnParts(base, tail, name);
    NothingShown();
    PrettyKeepsLetters(tail);
    JoinSplit(tail, '/');
    assert !HasPinned(entries, {}, name);
    hide NewEntry, Fragment, Pretty, Squashed, Collides, HasPinned;
    LabelIsShown(entries, {}, SPELLING, 0);
    LabelIsShown(entries, {}, SPELLING, 1);
  }

  /** Ids that start alike and one of which ends there. */
  lemma RunsOutAt(segments: seq<seq<string>>, front: seq<string>, rest: seq<string>, k: nat)
    requires k < |segments| && segments[k] == front
    requires forall j :: 0 <= j < |segments| ==> segments[j] == front || segments[j] == front + rest
    ensures IsShared(segments, 0, |front|)
  {
    forall s: nat | s < |front| ensures Extends(segments, s, 0) {
      assert forall j :: 0 <= j < |segments| ==> |segments[j]| > s && segments[j][s] == front[s];
    }
    assert |segments[k]| == |front|;
  }

  lemma OwnParts(base: string, tail: string, name: string)
    requires name != ""
    ensures var entries := [Entry(base, name), Entry(base + "/" + tail, name)];
            Fragment(entries, {}, name, 0) == [] && Fragment(entries, {}, name, 1) == Split(tail, '/')
  {
    var entries := [Entry(base, name), Entry(base + "/" + tail, name)];
    SplitTwo(base, tail, '/');
    MembersAreRenamed(entries, {}, name);
    assert !HasPinned(entries, {}, name);
    MayShedMeans(entries, {}, name);
    var r := Renaming(entries, {}, name);
    assert 0 in r by {
      assert Member(entries, {}, name, 0);
    }
    var segments := Segments(entries, r);
    var k :| 0 <= k < |r| && r[k] == 0;
    forall j | 0 <= j < |r| ensures segments[j] == Split(base, '/') || segments[j] == Split(base, '/') + Split(tail, '/') {
      assert r[j] in r;
      assert r[j] == 0 || r[j] == 1;
    }
    hide Renaming, MayShed, Shared, Split, IsShared, Extends, Member;
    RunsOutAt(segments, Split(base, '/'), Split(tail, '/'), k);
    SharedIsUnique(segments, 0, |Split(base, '/')|, SharedOf(entries, {}, name));
  }
}
