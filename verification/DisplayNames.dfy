/** Telling apart the members of a model family that share one title
    (`backends/base.py`, `disambiguate_display_names`). */
module DisplayNames {
  import opened Strings

  datatype Entry = Entry(id: string, name: string)

  /** `_prettify` and `_squashed`, whatever they do. */
  datatype Spelling = Spelling(pretty: string -> string, squash: string -> string)

  /** `id.split("/")`. */
  function SplitId(id: string): (r: seq<string>)
    ensures |r| >= 1
  {
    Split(id, '/')
  }

  // ----- Groups -----

  predicate Within(idxs: seq<nat>, n: nat) {
    forall i :: i in idxs ==> i < n
  }

  lemma WithinPrefix(idxs: seq<nat>, m: nat, n: nat)
    requires Within(idxs, n) && m <= |idxs|
    ensures Within(idxs[..m], n)
  {
    forall i | i in idxs[..m] ensures i < n {
      var k :| 0 <= k < m && idxs[k] == i;
      assert idxs[k] in idxs;
    }
  }

  /** The indices before `n` of the entries titled `name`. */
  function Group(entries: seq<Entry>, name: string, n: nat): (r: seq<nat>)
    requires n <= |entries|
    ensures Within(r, |entries|)
  {
    if n == 0 then []
    else if entries[n - 1].name == name then Group(entries, name, n - 1) + [n - 1]
    else Group(entries, name, n - 1)
  }

  function Unpinned(entries: seq<Entry>, idxs: seq<nat>, pinned: set<string>): (r: seq<nat>)
    requires Within(idxs, |entries|)
    ensures Within(r, |entries|)
  {
    if idxs == [] then []
    else
      var n := |idxs| - 1;
      WithinPrefix(idxs, n, |entries|);
      assert idxs[n] in idxs;
      var rest := Unpinned(entries, idxs[..n], pinned);
      if entries[idxs[n]].id in pinned then rest else rest + [idxs[n]]
  }

  lemma {:induction false} GroupFacts(entries: seq<Entry>, name: string, n: nat)
    requires n <= |entries|
    ensures forall i: nat :: i in Group(entries, name, n) <==> i < n && entries[i].name == name
    decreases n
  {
    if n > 0 {
      GroupFacts(entries, name, n - 1);
    }
  }

  lemma {:induction false} NoGroup(entries: seq<Entry>, name: string, n: nat)
    requires n <= |entries| && forall j: nat :: j < n ==> entries[j].name != name
    ensures Group(entries, name, n) == []
    decreases n
  {
    if n > 0 {
      NoGroup(entries, name, n - 1);
    }
  }

  /** A title that only one entry has makes a group of one. */
  lemma {:induction false} LoneGroup(entries: seq<Entry>, name: string, n: nat, i: nat)
    requires n <= |entries| && forall j: nat :: j < n && j != i ==> entries[j].name != name
    ensures |Group(entries, name, n)| <= 1
    decreases n
  {
    if n > 0 {
      LoneGroup(entries, name, n - 1, i);
      if n - 1 == i {
        NoGroup(entries, name, n - 1);
      }
    }
  }

  lemma {:induction false} UnpinnedFacts(entries: seq<Entry>, idxs: seq<nat>, pinned: set<string>)
    requires Within(idxs, |entries|)
    ensures forall i: nat :: i in Unpinned(entries, idxs, pinned) <==> i in idxs && entries[i].id !in pinned
    ensures |Unpinned(entries, idxs, pinned)| <= |idxs|
    ensures |Unpinned(entries, idxs, pinned)| == |idxs| <==> forall i: nat :: i in idxs ==> entries[i].id !in pinned
    decreases |idxs|
  {
    if idxs != [] {
      var n := |idxs| - 1;
      assert idxs == idxs[..n] + [idxs[n]] && idxs[n] in idxs;
      WithinPrefix(idxs, n, |entries|);
      UnpinnedFacts(entries, idxs[..n], pinned);
    }
  }

  function Segments(entries: seq<Entry>, idxs: seq<nat>): (r: seq<seq<string>>)
    requires Within(idxs, |entries|)
    ensures |r| == |idxs| && forall k :: 0 <= k < |r| ==> idxs[k] < |entries| && r[k] == SplitId(entries[idxs[k]].id)
  {
    assert forall k :: 0 <= k < |idxs| ==> idxs[k] in idxs;
    seq(|idxs|, k requires 0 <= k < |idxs| => SplitId(entries[idxs[k]].id))
  }

  /** Every member is longer than `shared + floor`, and all agree at `shared`. */
  predicate Extends(segments: seq<seq<string>>, shared: nat, floor: nat) {
    && (forall k :: 0 <= k < |segments| ==> |segments[k]| > shared + floor)
    && (forall j, k :: 0 <= j < |segments| && 0 <= k < |segments| ==>
          |segments[j]| > shared && |segments[k]| > shared && segments[j][shared] == segments[k][shared])
  }

  /** `shared` is as far as the members run together. */
  predicate IsShared(segments: seq<seq<string>>, floor: nat, shared: nat) {
    (forall s: nat :: s < shared ==> Extends(segments, s, floor)) && !Extends(segments, shared, floor)
  }

  function Shared(segments: seq<seq<string>>, floor: nat, from: nat): (r: nat)
    requires segments != [] && forall s: nat :: s < from ==> Extends(segments, s, floor)
    ensures IsShared(segments, floor, r)
    decreases if |segments[0]| >= from then |segments[0]| - from else 0
  {
    if Extends(segments, from, floor) then Shared(segments, floor, from + 1) else from
  }

  /** The `while` loop. */
  method SharedPrefix(segments: seq<seq<string>>, floor: nat) returns (shared: nat)
    requires segments != []
    ensures shared == Shared(segments, floor, 0)
  {
    shared := 0;
    while Extends(segments, shared, floor)
      invariant forall s: nat :: s < shared ==> Extends(segments, s, floor)
      decreases if |segments[0]| >= shared then |segments[0]| - shared else 0
    {
      shared := shared + 1;
    }
    SharedIsUnique(segments, floor, shared, Shared(segments, floor, 0));
  }

  lemma SharedIsUnique(segments: seq<seq<string>>, floor: nat, a: nat, b: nat)
    requires IsShared(segments, floor, a) && IsShared(segments, floor, b)
    ensures a == b
  {
    assert !(a < b) && !(b < a);
  }

  // ----- Fragments -----

  function Renaming(entries: seq<Entry>, pinned: set<string>, name: string): (r: seq<nat>)
    ensures Within(r, |entries|)
  {
    Unpinned(entries, Group(entries, name, |entries|), pinned)
  }

  predicate Member(entries: seq<Entry>, pinned: set<string>, name: string, i: nat) {
    i < |entries| && entries[i].name == name && entries[i].id !in pinned
  }

  lemma MembersAreRenamed(entries: seq<Entry>, pinned: set<string>, name: string)
    ensures forall i: nat :: i in Renaming(entries, pinned, name) <==> Member(entries, pinned, name, i)
  {
    GroupFacts(entries, name, |entries|);
    UnpinnedFacts(entries, Group(entries, name, |entries|), pinned);
    hide Group, Unpinned;
  }

  /** One member may keep the bare family name only when nothing in the group is pinned. */
  predicate MayShed(entries: seq<Entry>, pinned: set<string>, name: string) {
    |Renaming(entries, pinned, name)| == |Group(entries, name, |entries|)|
  }

  function Floor(entries: seq<Entry>, pinned: set<string>, name: string): nat {
    if MayShed(entries, pinned, name) then 0 else 1
  }

  predicate Renames(entries: seq<Entry>, pinned: set<string>, name: string) {
    name != "" && |Group(entries, name, |entries|)| >= 2 && Renaming(entries, pinned, name) != []
  }

  function SharedOf(entries: seq<Entry>, pinned: set<string>, name: string): nat
    requires Renaming(entries, pinned, name) != []
  {
    Shared(Segments(entries, Renaming(entries, pinned, name)), Floor(entries, pinned, name), 0)
  }

  lemma SharedFits(entries: seq<Entry>, pinned: set<string>, name: string, i: nat)
    requires Member(entries, pinned, name, i)
    ensures Renaming(entries, pinned, name) != []
    ensures SharedOf(entries, pinned, name) + Floor(entries, pinned, name) <= |SplitId(entries[i].id)|
  {
    MembersAreRenamed(entries, pinned, name);
    var r := Renaming(entries, pinned, name);
    var segments := Segments(entries, r);
    var k :| 0 <= k < |r| && r[k] == i;
    var shared := SharedOf(entries, pinned, name);
    if shared > 0 {
      assert Extends(segments, shared - 1, Floor(entries, pinned, name));
      assert |segments[k]| > shared - 1 + Floor(entries, pinned, name);
    }
  }

  /** What is left of an id past what the members being renamed share. */
  function Fragment(entries: seq<Entry>, pinned: set<string>, name: string, i: nat): seq<string>
    requires Member(entries, pinned, name, i)
  {
    SharedFits(entries, pinned, name, i);
    SplitId(entries[i].id)[SharedOf(entries, pinned, name)..]
  }

  function Retitled(name: string, fragment: seq<string>, mayShed: bool, sp: Spelling): string {
    var tag := sp.pretty(Join(fragment, '/'));
    if mayShed && (tag == "" || sp.squash(tag) == sp.squash(name)) then name else name + " (" + tag + ")"
  }

  function NewName(entries: seq<Entry>, pinned: set<string>, sp: Spelling, i: nat): string
    requires i < |entries|
  {
    var name := entries[i].name;
    if Renames(entries, pinned, name) && entries[i].id !in pinned
    then Retitled(name, Fragment(entries, pinned, name, i), MayShed(entries, pinned, name), sp)
    else name
  }

  // ----- The function itself -----

  method GroupByName(entries: seq<Entry>) returns (names: seq<string>, groups: map<string, seq<nat>>)
    ensures forall name :: name in names <==> name in groups
    ensures "" !in names
    ensures forall name :: name in groups ==> groups[name] == Group(entries, name, |entries|)
    ensures forall i :: 0 <= i < |entries| && entries[i].name != "" ==> entries[i].name in groups
  {
    names, groups := [], map[];
    for i := 0 to |entries|
      invariant forall name :: name in names <==> name in groups
      invariant "" !in groups
      invariant forall name :: name in groups ==> groups[name] == Group(entries, name, i)
      invariant forall name :: name != "" && name !in groups ==> Group(entries, name, i) == []
      invariant forall k :: 0 <= k < i && entries[k].name != "" ==> entries[k].name in groups
    {
      var name := entries[i].name;
      if name == "" {
        continue;
      }
      if name in groups {
        groups := groups[name := groups[name] + [i]];
      } else {
        names := names + [name];
        groups := groups[name := [i]];
      }
    }
  }

  function NewEntry(entries: seq<Entry>, pinned: set<string>, sp: Spelling, i: nat): Entry
    requires i < |entries|
  {
    Entry(entries[i].id, NewName(entries, pinned, sp, i))
  }

  method Disambiguate(entries: seq<Entry>, pinned: set<string>, sp: Spelling) returns (out: seq<Entry>)
    ensures |out| == |entries|
    ensures forall i :: 0 <= i < |entries| ==> out[i] == NewEntry(entries, pinned, sp, i)
    ensures forall i :: 0 <= i < |entries| ==> out[i].id == entries[i].id && IsTitled(entries, pinned, sp, i, out[i].name)
  {
    var names, groups := GroupByName(entries);
    out := entries;
    forall i | 0 <= i < |entries| ensures IsTitled(entries, pinned, sp, i, NewEntry(entries, pinned, sp, i).name) {
      TitleIs(entries, pinned, sp, i);
    }
    hide NewName, IsTitled;
    for g := 0 to |names|
      invariant |out| == |entries|
      invariant forall i :: 0 <= i < |entries| ==>
        out[i] == (if entries[i].name in names[..g] then NewEntry(entries, pinned, sp, i) else entries[i])
    {
      assert names[g] in names;
      out := RenameGroup(entries, pinned, sp, names[g], groups[names[g]], out);
      assert names[..g + 1] == names[..g] + [names[g]];
    }
    assert names[..|names|] == names;
    NamelessStay(entries, pinned, sp);
  }

  lemma NamelessStay(entries: seq<Entry>, pinned: set<string>, sp: Spelling)
    ensures forall i :: 0 <= i < |entries| && entries[i].name == "" ==> NewEntry(entries, pinned, sp, i) == entries[i]
  {
  }

  /** One turn of the loop over the groups. */
  method RenameGroup(entries: seq<Entry>, pinned: set<string>, sp: Spelling, name: string, idxs: seq<nat>, before: seq<Entry>)
    returns (out: seq<Entry>)
    requires name != "" && idxs == Group(entries, name, |entries|) && |before| == |entries|
    requires forall i :: 0 <= i < |entries| ==> before[i] == entries[i] || before[i] == NewEntry(entries, pinned, sp, i)
    ensures |out| == |entries|
    ensures forall i :: 0 <= i < |entries| ==>
              out[i] == (if entries[i].name == name then NewEntry(entries, pinned, sp, i) else before[i])
  {
    out := before;
    MembersAreRenamed(entries, pinned, name);
    WhoKeeps(entries, pinned, sp, name);
    hide Group, NewEntry, NewName, Extends, Retitled;
    if |idxs| < 2 {
      return;
    }
    var renaming := Unpinned(entries, idxs, pinned);
    if renaming == [] {
      return;
    }
    var segments := Segments(entries, renaming);
    var mayShed := |renaming| == |idxs|;
    var shared := SharedPrefix(segments, if mayShed then 0 else 1);
    assert renaming == Renaming(entries, pinned, name) && shared == SharedOf(entries, pinned, name);
    assert Renames(entries, pinned, name) && mayShed == MayShed(entries, pinned, name);
    hide Unpinned, Shared, Renaming, SharedOf, Renames, MayShed;
    for k := 0 to |renaming|
      invariant |out| == |entries|
      invariant forall i :: 0 <= i < |entries| ==>
        out[i] == (if i in renaming[..k] then NewEntry(entries, pinned, sp, i) else before[i])
    {
      var i := renaming[k];
      assert i in renaming;
      Relabels(entries, pinned, sp, name, i);
      out := out[i := Entry(entries[i].id, Retitled(name, segments[k][shared..], mayShed, sp))];
      assert renaming[..k + 1] == renaming[..k] + [i];
    }
    assert renaming[..|renaming|] == renaming;
  }

  lemma WhoKeeps(entries: seq<Entry>, pinned: set<string>, sp: Spelling, name: string)
    ensures forall i :: 0 <= i < |entries| && entries[i].name == name && !(Renames(entries, pinned, name) && Member(entries, pinned, name, i)) ==>
              NewEntry(entries, pinned, sp, i) == entries[i]
  {
    hide Renaming, Group;
  }

  lemma Relabels(entries: seq<Entry>, pinned: set<string>, sp: Spelling, name: string, i: nat)
    requires Renames(entries, pinned, name) && Member(entries, pinned, name, i)
    ensures SharedOf(entries, pinned, name) <= |SplitId(entries[i].id)|
    ensures NewEntry(entries, pinned, sp, i)
            == Entry(entries[i].id, Retitled(name, SplitId(entries[i].id)[SharedOf(entries, pinned, name)..], MayShed(entries, pinned, name), sp))
  {
    SharedFits(entries, pinned, name, i);
    hide SharedOf, Renaming, Group, MayShed, Retitled;
  }

  // ----- What the fragments are worth -----

  predicate DistinctIds(entries: seq<Entry>) {
    forall i, j :: 0 <= i < j < |entries| ==> entries[i].id != entries[j].id
  }

  lemma SameStart(entries: seq<Entry>, pinned: set<string>, name: string, i: nat, j: nat)
    requires Member(entries, pinned, name, i) && Member(entries, pinned, name, j)
    ensures Renaming(entries, pinned, name) != []
    ensures var shared := SharedOf(entries, pinned, name);
            && shared <= |SplitId(entries[i].id)| && shared <= |SplitId(entries[j].id)|
            && SplitId(entries[i].id)[..shared] == SplitId(entries[j].id)[..shared]
  {
    SharedFits(entries, pinned, name, i);
    SharedFits(entries, pinned, name, j);
    MembersAreRenamed(entries, pinned, name);
    var r := Renaming(entries, pinned, name);
    var segments := Segments(entries, r);
    var shared := SharedOf(entries, pinned, name);
    var a :| 0 <= a < |r| && r[a] == i;
    var b :| 0 <= b < |r| && r[b] == j;
    forall s | 0 <= s < shared ensures segments[a][s] == segments[b][s] {
      assert Extends(segments, s, Floor(entries, pinned, name));
    }
  }

  /** In a group with a pinned entry no fragment is empty, however many entries are renamed: none of
      them may take the bare title that the pinned one holds. */
  lemma NoneIsBareBesidePinned(entries: seq<Entry>, pinned: set<string>, name: string, i: nat, j: nat)
    requires Member(entries, pinned, name, i)
    requires j < |entries| && entries[j].name == name && entries[j].id in pinned
    ensures !MayShed(entries, pinned, name) && Fragment(entries, pinned, name, i) != []
  {
    SharedFits(entries, pinned, name, i);
    GroupFacts(entries, name, |entries|);
    UnpinnedFacts(entries, Group(entries, name, |entries|), pinned);
    hide Group, SharedOf, SplitId;
  }

  /** In a group with distinct ids the fragments differ pairwise, so at most one is empty; none
      is when anything in the group is pinned. */
  lemma FragmentsDiffer(entries: seq<Entry>, pinned: set<string>, name: string, i: nat, j: nat)
    requires DistinctIds(entries) && i != j
    requires Member(entries, pinned, name, i) && Member(entries, pinned, name, j)
    ensures Fragment(entries, pinned, name, i) != Fragment(entries, pinned, name, j)
    ensures Fragment(entries, pinned, name, i) != [] || Fragment(entries, pinned, name, j) != []
    ensures !MayShed(entries, pinned, name) ==> Fragment(entries, pinned, name, i) != []
  {
    SameStart(entries, pinned, name, i, j);
    SharedFits(entries, pinned, name, i);
    var shared := SharedOf(entries, pinned, name);
    var a, b := SplitId(entries[i].id), SplitId(entries[j].id);
    if a[shared..] == b[shared..] {
      assert a == a[..shared] + a[shared..] && b == b[..shared] + b[shared..];
      JoinSplit(entries[i].id, '/');
      JoinSplit(entries[j].id, '/');
    }
  }

  /** The scan stops only where it must: the members part, or one would lose its last segment. */
  lemma FragmentsAreShort(entries: seq<Entry>, pinned: set<string>, name: string) returns (i: nat, j: nat)
    requires Renaming(entries, pinned, name) != []
    ensures Member(entries, pinned, name, i) && Member(entries, pinned, name, j)
    ensures var a, b := Fragment(entries, pinned, name, i), Fragment(entries, pinned, name, j);
            |a| == Floor(entries, pinned, name) || (a != [] && b != [] && a[0] != b[0])
  {
    MembersAreRenamed(entries, pinned, name);
    var r := Renaming(entries, pinned, name);
    var segments := Segments(entries, r);
    var shared, floor := SharedOf(entries, pinned, name), Floor(entries, pinned, name);
    assert !Extends(segments, shared, floor);
    hide Renaming, Shared, MayShed, SplitId;
    if k :| 0 <= k < |segments| && |segments[k]| <= shared + floor {
      assert r[k] in r;
      i, j := r[k], r[k];
      SharedFits(entries, pinned, name, i);
    } else {
      var a, b :| 0 <= a < |segments| && 0 <= b < |segments| && segments[a][shared] != segments[b][shared];
      assert r[a] in r && r[b] in r;
      i, j := r[a], r[b];
    }
  }

  /** Ids, order and length stay; a pinned entry, one without a title and one whose title
      nobody shares keep what they have; every other title keeps its family name in front. */
  lemma WhoIsRenamed(entries: seq<Entry>, pinned: set<string>, sp: Spelling, i: nat)
    requires i < |entries|
    ensures entries[i].id in pinned ==> NewName(entries, pinned, sp, i) == entries[i].name
    ensures entries[i].name == "" ==> NewName(entries, pinned, sp, i) == ""
    ensures (forall j :: 0 <= j < |entries| && j != i ==> entries[j].name != entries[i].name) ==>
              NewName(entries, pinned, sp, i) == entries[i].name
    ensures entries[i].name <= NewName(entries, pinned, sp, i)
    ensures (exists j :: 0 <= j < |entries| && j != i && entries[j].name == entries[i].name && entries[j].id in pinned)
              && entries[i].id !in pinned && entries[i].name != "" ==>
              NewName(entries, pinned, sp, i) != entries[i].name
  {
    var name := entries[i].name;
    GroupFacts(entries, name, |entries|);
    UnpinnedFacts(entries, Group(entries, name, |entries|), pinned);
    if forall j: nat :: j < |entries| && j != i ==> entries[j].name != name {
      LoneGroup(entries, name, |entries|, i);
    }
    if j: nat :| j < |entries| && j != i && entries[j].name == name && entries[j].id in pinned {
      TwoInGroup(Group(entries, name, |entries|), i, j);
    }
    hide Group, SharedOf, SplitId;
  }

  lemma TwoInGroup(group: seq<nat>, i: nat, j: nat)
    requires i in group && j in group && i != j
    ensures |group| >= 2
  {
  }

  // ----- What the titles are worth -----

  /** Somebody else has the title. */
  predicate Collides(entries: seq<Entry>, i: nat) {
    i < |entries| && entries[i].name != "" && exists j :: 0 <= j < |entries| && j != i && entries[j].name == entries[i].name
  }

  /** Somebody in the group is pinned. */
  predicate HasPinned(entries: seq<Entry>, pinned: set<string>, name: string) {
    exists j :: 0 <= j < |entries| && entries[j].name == name && entries[j].id in pinned
  }

  /** The fragment as it is shown. */
  function Label(entries: seq<Entry>, pinned: set<string>, sp: Spelling, i: nat): string
    requires i < |entries| && entries[i].id !in pinned
  {
    sp.pretty(Join(Fragment(entries, pinned, entries[i].name, i), '/'))
  }

  lemma MayShedMeans(entries: seq<Entry>, pinned: set<string>, name: string)
    ensures MayShed(entries, pinned, name) <==> !HasPinned(entries, pinned, name)
  {
    GroupFacts(entries, name, |entries|);
    UnpinnedFacts(entries, Group(entries, name, |entries|), pinned);
    hide Group, Unpinned;
  }

  lemma CollidingIsRenamed(entries: seq<Entry>, pinned: set<string>, i: nat)
    requires Collides(entries, i) && entries[i].id !in pinned
    ensures Renames(entries, pinned, entries[i].name)
  {
    var name := entries[i].name;
    GroupFacts(entries, name, |entries|);
    MembersAreRenamed(entries, pinned, name);
    var j: nat :| j < |entries| && j != i && entries[j].name == name;
    assert Member(entries, pinned, name, i);
    hide Group, Unpinned, Renaming;
    TwoInGroup(Group(entries, name, |entries|), i, j);
  }

  /** A colliding title that is not pinned gets its own label in parentheses, unless nothing in
      its group is pinned and the label says no more than the title. */
  lemma LabelIsShown(entries: seq<Entry>, pinned: set<string>, sp: Spelling, i: nat)
    requires Collides(entries, i) && entries[i].id !in pinned
    ensures var name, shown := entries[i].name, Label(entries, pinned, sp, i);
            NewEntry(entries, pinned, sp, i).name
            == if !HasPinned(entries, pinned, name) && (shown == "" || sp.squash(shown) == sp.squash(name)) then name
               else name + " (" + shown + ")"
  {
    CollidingIsRenamed(entries, pinned, i);
    MayShedMeans(entries, pinned, entries[i].name);
    hide Renames, MayShed, Fragment, HasPinned;
  }

  /** The title an entry is to have: its own unless somebody else has it too and it is not pinned,
      and then with the entry's own label in parentheses, unless nothing of that title is pinned
      and the label says no more than the title. */
  predicate IsTitled(entries: seq<Entry>, pinned: set<string>, sp: Spelling, i: nat, title: string)
    requires i < |entries|
  {
    var name := entries[i].name;
    if !Collides(entries, i) || entries[i].id in pinned then title == name
    else
      var shown := Label(entries, pinned, sp, i);
      title == if !HasPinned(entries, pinned, name) && (shown == "" || sp.squash(shown) == sp.squash(name)) then name
               else name + " (" + shown + ")"
  }

  lemma TitleIs(entries: seq<Entry>, pinned: set<string>, sp: Spelling, i: nat)
    requires i < |entries|
    ensures IsTitled(entries, pinned, sp, i, NewEntry(entries, pinned, sp, i).name)
  {
    hide NewName, Label, HasPinned;
    if Collides(entries, i) && entries[i].id !in pinned {
      LabelIsShown(entries, pinned, sp, i);
    } else {
      WhoIsRenamed(entries, pinned, sp, i);
    }
  }

  lemma Parenthesised(name: string, a: string, b: string)
    ensures name + " (" + a + ")" == name + " (" + b + ")" <==> a == b
    ensures |name + " (" + a + ")"| > |name|
  {
    var front := name + " (";
    assert (front + a + ")")[|front|..|front| + |a|] == a && (front + b + ")")[|front|..|front| + |b|] == b;
  }

  /** The main result: two entries of one title are still titled alike exactly when both are
      pinned, or neither is and their labels are the same, or nothing of that title is pinned and
      both labels say no more than the title. */
  lemma AlikeExactlyWhen(entries: seq<Entry>, pinned: set<string>, sp: Spelling, i: nat, j: nat)
    requires i < |entries| && j < |entries| && i != j && entries[i].name == entries[j].name != ""
    ensures var name := entries[i].name;
            NewEntry(entries, pinned, sp, i).name == NewEntry(entries, pinned, sp, j).name
            <==> || (entries[i].id in pinned && entries[j].id in pinned)
                 || (entries[i].id !in pinned && entries[j].id !in pinned
                     && var a, b := Label(entries, pinned, sp, i), Label(entries, pinned, sp, j);
                     || a == b
                     || (!HasPinned(entries, pinned, name)
                         && (a == "" || sp.squash(a) == sp.squash(name)) && (b == "" || sp.squash(b) == sp.squash(name))))
  {
    hide NewEntry, Label;
    assert Collides(entries, i) && Collides(entries, j);
    WhoIsRenamed(entries, pinned, sp, i);
    WhoIsRenamed(entries, pinned, sp, j);
    PinnedStays(entries, pinned, sp, i);
    PinnedStays(entries, pinned, sp, j);
    if entries[i].id !in pinned {
      LabelIsShown(entries, pinned, sp, i);
    }
    if entries[j].id !in pinned {
      LabelIsShown(entries, pinned, sp, j);
    }
    if entries[i].id !in pinned && entries[j].id !in pinned {
      Parenthesised(entries[i].name, Label(entries, pinned, sp, i), Label(entries, pinned, sp, j));
      Parenthesised(entries[i].name, Label(entries, pinned, sp, j), Label(entries, pinned, sp, i));
    }
  }

  lemma PinnedStays(entries: seq<Entry>, pinned: set<string>, sp: Spelling, i: nat)
    requires i < |entries|
    ensures NewEntry(entries, pinned, sp, i).id == entries[i].id
    ensures NewEntry(entries, pinned, sp, i).name == NewName(entries, pinned, sp, i)
  {
    hide NewName;
  }
}
