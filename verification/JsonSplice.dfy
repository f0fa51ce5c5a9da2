/** `JsonBody.replace_top_level`: the edit loop, the table of prefix shifts that moves the
    recorded offsets, and what a spliced body means. */
module JsonSplices {
  import opened JsonScanner
  import opened Options
  import opened JsonEncoder
  import opened JsonBodies
  import opened JsonEdits
  import opened JsonFields

  function FromFields(fields: seq<Entry>): JsonBody {
    JsonBody(fields, Encode(Dict(fields)), map[])
  }

  predicate AllLocated(b: JsonBody, updates: seq<Entry>) {
    forall u :: u in updates ==> u.key in b.spans
  }

  /** A body as `parse_object`, `from_fields` and `replace_top_level` make them. */
  predicate WellMade(b: JsonBody) {
    b.spans == map[] || Located(b)
  }

  /** The body a replacement gives, told by the members of the text rather than by offsets. */
  function Replaced(b: JsonBody, updates: seq<Entry>): JsonBody {
    if !AllLocated(b, updates) then FromFields(PutAll(b.fields, updates))
    else if !Located(b) then b
    else
      SpansAreExact(b.text);
      var ms := TopLevel(b.text).value;
      JsonBody(PutAll(b.fields, updates), Build(b.text, 0, EditsOf(ms, updates)), SpansOf(Moved(ms, updates, 0)))
  }

  // ----- What a spliced body means -----

  lemma {:induction false} GrowthApp(a: seq<Edit>, b: seq<Edit>)
    ensures GrowthSum(a + b) == GrowthSum(a) + GrowthSum(b)
    decreases |b|
  {
    if b == [] {
      assert a + b == a;
    } else {
      var front := b[..|b| - 1];
      assert (a + b)[..|a + b| - 1] == a + front;
      GrowthApp(a, front);
    }
  }

  lemma {:induction false} EditsSplit(ms: seq<Member>, updates: seq<Entry>, j: nat)
    requires j <= |ms|
    ensures EditsOf(ms, updates) == EditsOf(ms[..j], updates) + EditsOf(ms[j..], updates)
    decreases j
  {
    if j == 0 {
      assert ms[0..] == ms;
    } else {
      EditsSplit(ms[1..], updates, j - 1);
      assert ms[..j][1..] == ms[1..][..j - 1] && ms[j..] == ms[1..][j - 1..];
    }
  }

  lemma OrderedTail(ms: seq<Member>, updates: seq<Entry>, d: int)
    requires ms != [] && Ordered(ms) && ms[0].start + d >= 0
    ensures var m := ms[0];
            var v := Get(updates, m.key);
            var e := m.start + d + if v.Some? then |Encode(v.value)| else m.end - m.start;
            && Ordered(ms[1..]) && (|ms| > 1 ==> ms[1].start + (e - m.end) >= 0)
            && Moved(ms, updates, d) ==
               [Member(m.key, if v.Some? then Joined(v.value) else m.value, m.start + d, e)] + Moved(ms[1..], updates, e - m.end)
  {
  }

  /** The growth before the j-th member, the first member's edit apart. */
  lemma GrowthHead(ms: seq<Member>, updates: seq<Entry>, j: nat)
    requires 0 < j < |ms|
    ensures var m, v := ms[0], Get(updates, ms[0].key);
            GrowthSum(EditsOf(ms[..j], updates))
            == GrowthSum(EditsOf(ms[1..][..j - 1], updates)) + if v.Some? then |Encode(v.value)| - (m.end - m.start) else 0
  {
    hide Encode, Get;
    var m, v := ms[0], Get(updates, ms[0].key);
    assert ms[..j][1..] == ms[1..][..j - 1];
    var first := if v.Some? then [Edit(m.start, m.end, Encode(v.value))] else [];
    assert EditsOf(ms[..j], updates) == first + EditsOf(ms[1..][..j - 1], updates);
    GrowthApp(first, EditsOf(ms[1..][..j - 1], updates));
    if v.Some? {
      assert GrowthSum(first) == Growth(first[0]) by {
        assert first[..0] == [];
        assert GrowthSum([]) == 0;
      }
    }
  }

  /** The members after the first, and how far the first one's edit moves them. */
  lemma MovedRest(ms: seq<Member>, updates: seq<Entry>, d: int, j: nat) returns (rest: seq<Member>, shift: int)
    requires Ordered(ms) && 0 < j < |ms| && ms[0].start + d >= 0
    ensures rest == ms[1..] && Ordered(rest) && rest != [] && rest[0].start + shift >= 0 && rest[j - 1] == ms[j]
    ensures Moved(ms, updates, d)[j] == Moved(rest, updates, shift)[j - 1]
    ensures shift == d + if Get(updates, ms[0].key).Some?
                         then |Encode(Get(updates, ms[0].key).value)| - (ms[0].end - ms[0].start) else 0
  {
    hide Encode, Moved, Joined, Get, Ordered;
    OrderedTail(ms, updates, d);
    var m, v := ms[0], Get(updates, ms[0].key);
    rest := ms[1..];
    shift := m.start + d + (if v.Some? then |Encode(v.value)| else m.end - m.start) - m.end;
  }

  /** Where the j-th member ends up: its old place plus the growth of every edit before it. */
  lemma {:induction false} MovedAt(ms: seq<Member>, updates: seq<Entry>, d: int, j: nat)
    requires Ordered(ms) && ms != [] && ms[0].start + d >= 0 && j < |ms|
    ensures var m, v := ms[j], Get(updates, ms[j].key);
            var r := Moved(ms, updates, d)[j];
            && r.key == m.key && r.value == (if v.Some? then Joined(v.value) else m.value)
            && r.start == m.start + d + GrowthSum(EditsOf(ms[..j], updates))
            && r.end == r.start + (if v.Some? then |Encode(v.value)| else m.end - m.start)
    decreases j
  {
    hide Encode, Moved, Joined, Get, Ordered;
    OrderedTail(ms, updates, d);
    if j == 0 {
      assert ms[..0] == [];
      assert EditsOf([], updates) == [];
    } else {
      var rest, shift := MovedRest(ms, updates, d, j);
      GrowthHead(ms, updates, j);
      hide *;
      MovedAt(rest, updates, shift, j - 1);
    }
  }

  lemma {:induction false} GetJoined(updates: seq<Entry>, key: Text)
    ensures Get(JoinedValues(updates), key) ==
            if Get(updates, key).Some? then Some(Joined(Get(updates, key).value)) else None
    decreases |updates|
  {
    if updates != [] {
      assert JoinedValues(updates)[1..] == JoinedValues(updates[1..]);
      GetJoined(updates[1..], key);
    }
  }

  /** The fields a parse of the spliced text finds. */
  lemma MovedFields(ms: seq<Member>, updates: seq<Entry>)
    requires Ordered(ms) && DistinctKeys(updates)
    requires forall u :: u in updates ==> u.key in KeysOf(ms)
    ensures FieldsOf(Moved(ms, updates, 0)) == PutAll(FieldsOf(ms), JoinedValues(updates))
  {
    hide Encode, Moved, Joined, Get, FieldsOf, Ordered, SetAll, PutAll;
    var joined := JoinedValues(updates);
    assert DistinctKeys(joined);
    assert forall u :: u in joined ==> u.key in KeysOf(ms);
    SetAllFields(ms, joined);
    var told := SetAll(ms, joined);
    SetAllLength(ms, joined);
    forall j | 0 <= j < |ms|
      ensures Moved(ms, updates, 0)[j].key == told[j].key && Moved(ms, updates, 0)[j].value == told[j].value
    {
      MovedAt(ms, updates, 0, j);
      SetAllAt(ms, joined, j);
      GetJoined(updates, ms[j].key);
    }
    SameFields(Moved(ms, updates, 0), told);
  }

  lemma {:induction false} SetAllLength(ms: seq<Member>, updates: seq<Entry>)
    ensures |SetAll(ms, updates)| == |ms|
    decreases |updates|
  {
    if updates != [] {
      SetAllLength(SetValue(ms, updates[0].key, updates[0].value), updates[1..]);
    }
  }

  lemma SameFields(a: seq<Member>, b: seq<Member>)
    requires |a| == |b| && forall j :: 0 <= j < |a| ==> a[j].key == b[j].key && a[j].value == b[j].value
    ensures FieldsOf(a) == FieldsOf(b)
  {
    assert Strip(a) == Strip(b);
  }

  /** What a member holds once the edited text is read back. */
  function NewValue(updates: seq<Entry>, m: Member): Value {
    var v := Get(updates, m.key);
    if v.Some? then Joined(v.value) else m.value
  }

  /** The main result. Splicing keeps the member list: the same keys in the same order, every
      occurrence of an updated key holding the new value, everything else unchanged; and the
      moved offsets are the ones a fresh parse of the new text records. */
  lemma SpliceKeepsMeaning(b: JsonBody, updates: seq<Entry>)
    requires Located(b) && ProperUpdates(updates) && AllLocated(b, updates)
    ensures var ms := TopLevel(b.text).value;
            var r := Replaced(b, updates);
            && TopLevel(r.text).Some? && Located(r)
            && var after := TopLevel(r.text).value;
            && |after| == |ms|
            && (forall j :: 0 <= j < |ms| ==> after[j].key == ms[j].key)
            && (forall j :: 0 <= j < |ms| ==> after[j].value == NewValue(updates, ms[j]))
            && FieldsOf(after) == PutAll(FieldsOf(ms), JoinedValues(updates))
            && r.fields == PutAll(b.fields, updates)
  {
    hide TopLevel, Encode, Moved, Joined, Get, FieldsOf, Ordered, SpansOf, SpansFor, PutAll, Build, EditsOf, Spliced;
    var ms := TopLevel(b.text).value;
    SpansAreExact(b.text);
    SpansKeys(ms);
    var u := Build(b.text, 0, EditsOf(ms, updates));
    assert Ends(u, 0, u);
    BuildSplices(b.text, u, ms, updates, 0, 0);
    SplicedTopLevel(b.text, u, updates);
    if ms != [] {
      forall j | 0 <= j < |ms|
        ensures Moved(ms, updates, 0)[j].key == ms[j].key
        ensures Moved(ms, updates, 0)[j].value ==
                NewValue(updates, ms[j])
      {
        MovedAt(ms, updates, 0, j);
      }
    }
    MovedFields(ms, updates);
  }

  lemma SpansKeys(ms: seq<Member>)
    ensures SpansOf(ms).Keys == KeysOf(ms)
    ensures SpansOf(ms) == map[] <==> ms == []
  {
    if ms != [] {
      assert ms[0].key in KeysOf(ms);
    } else {
      NothingRecorded();
    }
  }

  predicate CleanUpdates(updates: seq<Entry>) {
    forall u :: u in updates ==> Clean(u.value)
  }

  lemma {:induction false} GetPut(d: seq<Entry>, key: Text, v: Value, other: Text)
    ensures Get(Put(d, key, v), other) == if other == key then Some(v) else Get(d, other)
    decreases |d|
  {
    if d != [] && d[0].key != key {
      GetPut(d[1..], key, v, other);
    }
  }

  lemma DistinctRest(updates: seq<Entry>)
    requires updates != [] && DistinctKeys(updates)
    ensures DistinctKeys(updates[1..]) && Get(updates[1..], updates[0].key).None?
  {
    var rest := updates[1..];
    assert forall a, b :: 0 <= a < b < |rest| ==> rest[a] == updates[a + 1] && rest[b] == updates[b + 1];
    GetAbsent(rest, updates[0].key);
  }

  lemma {:induction false} GetPutAll(d: seq<Entry>, updates: seq<Entry>, key: Text)
    requires DistinctKeys(updates)
    ensures Get(PutAll(d, updates), key) == if Get(updates, key).Some? then Get(updates, key) else Get(d, key)
    decreases |updates|
  {
    hide Put, DistinctKeys;
    if updates != [] {
      DistinctRest(updates);
      GetPut(d, updates[0].key, updates[0].value, key);
      GetPutAll(Put(d, updates[0].key, updates[0].value), updates[1..], key);
    }
  }

  lemma {:induction false} GetListed(updates: seq<Entry>, i: nat)
    requires DistinctKeys(updates) && i < |updates|
    ensures Get(updates, updates[i].key) == Some(updates[i].value)
    decreases |updates|
  {
    if i > 0 {
      DistinctRest(updates);
      GetListed(updates[1..], i - 1);
    }
  }

  /** A replacement gives a parsed body back exactly when no new value holds a split surrogate
      pair. */
  lemma SpliceIsReparsed(b: JsonBody, updates: seq<Entry>)
    requires IsParsed(b) && ProperUpdates(updates) && AllLocated(b, updates)
    ensures IsParsed(Replaced(b, updates)) <==> CleanUpdates(updates)
  {
    hide TopLevel, Joined, Replaced, FieldsOf, PutAll, Located, AllLocated, Get, Proper, Clean;
    SpliceKeepsMeaning(b, updates);
    LocatedIsTopLevel(b);
    var joined := JoinedValues(updates);
    forall i | 0 <= i < |updates|
      ensures joined[i] == updates[i] <==> Clean(updates[i].value)
      ensures PutAll(b.fields, updates) == PutAll(b.fields, joined) ==> joined[i] == updates[i]
    {
      JoinedIsSame(updates[i].value);
      assert DistinctKeys(joined);
      GetPutAll(b.fields, updates, updates[i].key);
      GetPutAll(b.fields, joined, updates[i].key);
      GetListed(updates, i);
      GetListed(joined, i);
    }
    if CleanUpdates(updates) {
      assert joined == updates;
    }
  }

  lemma LocatedIsTopLevel(b: JsonBody)
    requires Located(b)
    ensures TopLevel(b.text).Some?
  {
  }

  // ----- Any number of replacements -----

  function ReplacedAll(b: JsonBody, steps: seq<seq<Entry>>): JsonBody
    decreases |steps|
  {
    if steps == [] then b else ReplacedAll(Replaced(b, steps[0]), steps[1..])
  }

  lemma SameKeys(a: seq<Member>, b: seq<Member>)
    requires |a| == |b| && forall j :: 0 <= j < |a| ==> b[j].key == a[j].key
    ensures KeysOf(a) == KeysOf(b)
  {
    forall key ensures key in KeysOf(a) <==> key in KeysOf(b) {
      if key in KeysOf(a) {
        var j :| 0 <= j < |a| && a[j].key == key;
        assert b[j].key == key;
      }
      if key in KeysOf(b) {
        var j :| 0 <= j < |b| && b[j].key == key;
        assert a[j].key == key;
      }
    }
  }

  /** A replacement records spans for the same keys. */
  lemma SpliceKeepsSpanKeys(b: JsonBody, updates: seq<Entry>)
    requires Located(b) && ProperUpdates(updates) && AllLocated(b, updates)
    ensures Replaced(b, updates).spans.Keys == b.spans.Keys
  {
    hide TopLevel, Joined, Replaced, FieldsOf, PutAll, SpansOf, Get;
    SpliceKeepsMeaning(b, updates);
    var ms, after := TopLevel(b.text).value, TopLevel(Replaced(b, updates).text).value;
    SpansKeys(ms);
    SpansKeys(after);
    SameKeys(ms, after);
  }

  function PutSteps(d: seq<Entry>, steps: seq<seq<Entry>>): seq<Entry>
    decreases |steps|
  {
    if steps == [] then d else PutSteps(PutAll(d, steps[0]), steps[1..])
  }

  function JoinedSteps(steps: seq<seq<Entry>>): seq<seq<Entry>> {
    seq(|steps|, i requires 0 <= i < |steps| => JoinedValues(steps[i]))
  }

  /** The last value given to a key. */
  function LastUpdate(steps: seq<seq<Entry>>, key: Text): Option<Value>
    decreases |steps|
  {
    if steps == [] then None
    else if LastUpdate(steps[1..], key).Some? then LastUpdate(steps[1..], key)
    else Get(steps[0], key)
  }

  /** What a member holds after all of them. */
  function FinalValue(steps: seq<seq<Entry>>, m: Member): Value {
    var v := LastUpdate(steps, m.key);
    if v.Some? then Joined(v.value) else m.value
  }

  predicate ProperSteps(b: JsonBody, steps: seq<seq<Entry>>) {
    forall s :: s in steps ==> ProperUpdates(s) && AllLocated(b, s)
  }

  lemma NextStep(b: JsonBody, steps: seq<seq<Entry>>)
    requires Located(b) && steps != [] && ProperSteps(b, steps)
    ensures Located(Replaced(b, steps[0])) && ProperSteps(Replaced(b, steps[0]), steps[1..])
  {
    var step := steps[0];
    assert step in steps;
    hide TopLevel, Replaced, ProperUpdates, SpansOf, FieldsOf, PutAll, Joined, Get;
    SpliceKeepsMeaning(b, step);
    SpliceKeepsSpanKeys(b, step);
    forall s | s in steps[1..] ensures ProperUpdates(s) && AllLocated(Replaced(b, step), s) {
      assert s in steps;
    }
  }

  /** After any sequence of replacements of keys that have spans, parsing the text anew gives the
      same keys in the same order, every occurrence of an updated key with the last value given to
      it and all else as it was; the body's offsets are those such a parse records; and its fields
      are the original ones with the updates written over them in turn. */
  lemma {:induction false} ReplacementsKeepMeaning(b: JsonBody, steps: seq<seq<Entry>>)
    requires Located(b) && ProperSteps(b, steps)
    ensures var ms := TopLevel(b.text).value;
            var r := ReplacedAll(b, steps);
            && TopLevel(r.text).Some? && Located(r) && r.fields == PutSteps(b.fields, steps)
            && var after := TopLevel(r.text).value;
            && |after| == |ms|
            && (forall j :: 0 <= j < |ms| ==> after[j].key == ms[j].key)
            && (forall j :: 0 <= j < |ms| ==> after[j].value == FinalValue(steps, ms[j]))
            && FieldsOf(after) == PutSteps(FieldsOf(ms), JoinedSteps(steps))
    decreases |steps|
  {
    hide TopLevel, Replaced, FieldsOf, PutAll, SpansOf, Joined, Get, ProperSteps;
    if steps != [] {
      var step := steps[0];
      NextStep(b, steps);
      assert ProperUpdates(step) && AllLocated(b, step) by {
        FirstStep(b, steps);
      }
      assert JoinedSteps(steps)[1..] == JoinedSteps(steps[1..]) && JoinedSteps(steps)[0] == JoinedValues(step);
      SpliceKeepsMeaning(b, step);
      ReplacementsKeepMeaning(Replaced(b, step), steps[1..]);
    }
  }

  lemma FirstStep(b: JsonBody, steps: seq<seq<Entry>>)
    requires steps != [] && ProperSteps(b, steps)
    ensures ProperUpdates(steps[0]) && AllLocated(b, steps[0])
  {
    assert steps[0] in steps;
  }

  // ----- When the fields are what the text says -----

  lemma {:induction false} PutInPlace(d: seq<Entry>, key: Text, v: Value)
    requires DistinctKeys(d) && HasKey(d, key)
    ensures |Put(d, key, v)| == |d|
    ensures forall i :: 0 <= i < |d| ==> Put(d, key, v)[i] == if d[i].key == key then Entry(key, v) else d[i]
    decreases |d|
  {
    if d[0].key == key {
      assert forall i :: 0 < i < |d| ==> d[i].key != key;
    } else {
      var rest := d[1..];
      assert DistinctKeys(rest) by {
        DistinctRest(d);
      }
      assert d == [d[0]] + rest;
      HasKeyCons(d[0], rest, key);
      hide DistinctKeys, HasKey;
      PutInPlace(rest, key, v);
      assert Put(d, key, v) == [d[0]] + Put(rest, key, v);
    }
  }

  /** Two lists of the same keys in the same order. */
  predicate Aligned(d: seq<Entry>, e: seq<Entry>) {
    |d| == |e| && forall i :: 0 <= i < |d| ==> d[i].key == e[i].key
  }

  predicate KeysIn(updates: seq<Entry>, d: seq<Entry>) {
    forall u :: u in updates ==> HasKey(d, u.key)
  }

  lemma AlignedKeys(d: seq<Entry>, e: seq<Entry>, updates: seq<Entry>)
    requires Aligned(d, e)
    ensures DistinctKeys(d) ==> DistinctKeys(e)
    ensures KeysIn(updates, d) ==> KeysIn(updates, e)
  {
    forall u | u in updates && HasKey(d, u.key) ensures HasKey(e, u.key) {
      var i :| 0 <= i < |d| && d[i].key == u.key;
      assert e[i].key == u.key;
    }
  }

  lemma {:induction false} PutAllAligned(d: seq<Entry>, updates: seq<Entry>)
    requires DistinctKeys(d) && KeysIn(updates, d)
    ensures Aligned(d, PutAll(d, updates))
    decreases |updates|
  {
    if updates != [] {
      var u := updates[0];
      assert u in updates && KeysIn(updates[1..], d);
      hide HasKey, DistinctKeys, KeysIn;
      assert HasKey(d, u.key) by {
        FirstKeyIn(updates, d);
      }
      PutInPlace(d, u.key, u.value);
      var next := Put(d, u.key, u.value);
      AlignedKeys(d, next, updates[1..]);
      PutAllAligned(next, updates[1..]);
    }
  }

  lemma FirstKeyIn(updates: seq<Entry>, d: seq<Entry>)
    requires updates != [] && KeysIn(updates, d)
    ensures HasKey(d, updates[0].key)
  {
    assert updates[0] in updates;
  }

  predicate StepsIn(steps: seq<seq<Entry>>, d: seq<Entry>) {
    forall s :: s in steps ==> DistinctKeys(s) && KeysIn(s, d)
  }

  lemma {:induction false} PutStepsAligned(d: seq<Entry>, steps: seq<seq<Entry>>)
    requires DistinctKeys(d) && StepsIn(steps, d)
    ensures Aligned(d, PutSteps(d, steps))
    decreases |steps|
  {
    if steps != [] {
      assert steps[0] in steps;
      hide DistinctKeys, KeysIn;
      PutAllAligned(d, steps[0]);
      var next := PutAll(d, steps[0]);
      forall s | s in steps[1..] ensures DistinctKeys(s) && KeysIn(s, next) {
        assert s in steps;
        AlignedKeys(d, next, s);
      }
      AlignedKeys(d, next, []);
      PutStepsAligned(next, steps[1..]);
    }
  }

  lemma {:induction false} GetPutSteps(d: seq<Entry>, steps: seq<seq<Entry>>, key: Text)
    requires forall s :: s in steps ==> DistinctKeys(s)
    ensures Get(PutSteps(d, steps), key) == if LastUpdate(steps, key).Some? then LastUpdate(steps, key) else Get(d, key)
    decreases |steps|
  {
    hide DistinctKeys, PutAll, Get;
    if steps != [] {
      assert steps[0] in steps;
      GetPutAll(d, steps[0], key);
      GetPutSteps(PutAll(d, steps[0]), steps[1..], key);
    }
  }

  lemma {:induction false} LastJoined(steps: seq<seq<Entry>>, key: Text)
    ensures LastUpdate(JoinedSteps(steps), key) ==
            if LastUpdate(steps, key).Some? then Some(Joined(LastUpdate(steps, key).value)) else None
    decreases |steps|
  {
    hide Joined, Get;
    if steps != [] {
      assert JoinedSteps(steps)[1..] == JoinedSteps(steps[1..]);
      GetJoined(steps[0], key);
      LastJoined(steps[1..], key);
    }
  }

  lemma PutKeepsDistinct(d: seq<Entry>, key: Text, v: Value)
    requires DistinctKeys(d)
    ensures DistinctKeys(Put(d, key, v))
  {
    if HasKey(d, key) {
      PutInPlace(d, key, v);
    } else {
      PutAtEnd(d, key, v);
    }
  }

  lemma {:induction false} PutAtEnd(d: seq<Entry>, key: Text, v: Value)
    requires !HasKey(d, key)
    ensures Put(d, key, v) == d + [Entry(key, v)]
    decreases |d|
  {
    if d != [] {
      assert d == [d[0]] + d[1..];
      HasKeyCons(d[0], d[1..], key);
      PutAtEnd(d[1..], key, v);
    }
  }

  lemma {:induction false} EntriesDistinct(es: seq<Entry>)
    ensures DistinctKeys(FromEntries(es))
    decreases |es|
  {
    if es != [] {
      EntriesDistinct(es[..|es| - 1]);
      PutKeepsDistinct(FromEntries(es[..|es| - 1]), es[|es| - 1].key, es[|es| - 1].value);
      hide DistinctKeys, Put;
    }
  }

  lemma {:induction false} GetProper(d: seq<Entry>, key: Text)
    requires forall u :: u in d ==> Proper(u.value)
    ensures Get(d, key).Some? ==> Proper(Get(d, key).value)
    decreases |d|
  {
    hide Proper;
    if d != [] {
      assert d[0] in d;
      assert forall u :: u in d[1..] ==> u in d;
      GetProper(d[1..], key);
    }
  }

  lemma {:induction false} LastProper(steps: seq<seq<Entry>>, key: Text)
    requires forall s :: s in steps ==> ProperUpdates(s)
    ensures LastUpdate(steps, key).Some? ==> Proper(LastUpdate(steps, key).value)
    decreases |steps|
  {
    if steps != [] {
      assert steps[0] in steps;
      GetProper(steps[0], key);
      hide Proper, Get, ProperUpdates;
      assert forall s :: s in steps[1..] ==> s in steps;
      LastProper(steps[1..], key);
    }
  }

  /** No key was last given a value with a high surrogate followed by a low one. */
  ghost predicate LastAreClean(steps: seq<seq<Entry>>) {
    forall key :: LastUpdate(steps, key).Some? ==> Clean(LastUpdate(steps, key).value)
  }

  /** The updates and what is read back of them give the same fields exactly when the last values
      are clean. */
  lemma SameFieldsExactlyWhen(d: seq<Entry>, steps: seq<seq<Entry>>)
    requires DistinctKeys(d) && StepsIn(steps, d) && forall s :: s in steps ==> ProperUpdates(s)
    ensures PutSteps(d, steps) == PutSteps(d, JoinedSteps(steps)) <==> LastAreClean(steps)
  {
    var joined := JoinedSteps(steps);
    JoinedIn(steps, d);
    forall key
      ensures Get(PutSteps(d, steps), key) == Get(PutSteps(d, joined), key) <==>
              (LastUpdate(steps, key).Some? ==> Clean(LastUpdate(steps, key).value))
    {
      GetPutSteps(d, steps, key);
      GetPutSteps(d, joined, key);
      LastJoined(steps, key);
      LastProper(steps, key);
      if LastUpdate(steps, key).Some? {
        JoinedIsSame(LastUpdate(steps, key).value);
      }
      hide Joined, Clean, Proper, Get, PutSteps, LastUpdate;
    }
    PutStepsAligned(d, steps);
    PutStepsAligned(d, joined);
    hide Joined, Clean, Proper, PutSteps, LastUpdate, StepsIn, JoinedSteps, Get;
    if LastAreClean(steps) {
      SameGets(PutSteps(d, steps), PutSteps(d, joined), d);
    }
  }

  lemma JoinedIn(steps: seq<seq<Entry>>, d: seq<Entry>)
    requires StepsIn(steps, d)
    ensures StepsIn(JoinedSteps(steps), d)
  {
    forall s | s in JoinedSteps(steps) ensures DistinctKeys(s) && KeysIn(s, d) {
      var i :| 0 <= i < |steps| && s == JoinedValues(steps[i]);
      assert steps[i] in steps;
      forall u | u in s ensures HasKey(d, u.key) {
        var j :| 0 <= j < |s| && s[j] == u;
        assert steps[i][j] in steps[i];
      }
    }
  }

  lemma SameGets(a: seq<Entry>, b: seq<Entry>, d: seq<Entry>)
    requires DistinctKeys(d) && Aligned(d, a) && Aligned(d, b) && forall key :: Get(a, key) == Get(b, key)
    ensures a == b
  {
    AlignedKeys(d, a, []);
    AlignedKeys(d, b, []);
    forall i | 0 <= i < |a| ensures a[i] == b[i] {
      GetListed(a, i);
      GetListed(b, i);
    }
  }

  lemma LocatedKeysIn(b: JsonBody, steps: seq<seq<Entry>>)
    requires IsParsed(b) && ProperSteps(b, steps)
    ensures DistinctKeys(b.fields) && StepsIn(steps, b.fields)
  {
    var ms := TopLevel(b.text).value;
    EntriesDistinct(Strip(ms));
    SpansKeys(ms);
    hide TopLevel, SpansOf, FieldsOf, FromEntries, Proper;
    forall s | s in steps ensures DistinctKeys(s) && KeysIn(s, b.fields) {
      forall u | u in s ensures HasKey(b.fields, u.key) {
        FieldsHaveKeys(ms, u.key);
      }
    }
  }

  /** The body is what parsing its text gives, after any sequence of replacements, exactly when no
      key was last given a value with a split surrogate pair. */
  lemma ReplacementsAreReparsed(b: JsonBody, steps: seq<seq<Entry>>)
    requires IsParsed(b) && ProperSteps(b, steps)
    ensures IsParsed(ReplacedAll(b, steps)) <==> LastAreClean(steps)
    ensures Decode(ReplacedAll(b, steps).text) == Some(Dict(PutSteps(b.fields, JoinedSteps(steps))))
  {
    ReplacementsKeepMeaning(b, steps);
    LocatedKeysIn(b, steps);
    hide TopLevel, ReplacedAll, FieldsOf, PutSteps, SpansOf, Decode, StepsIn, JoinedSteps, LastAreClean;
    SameFieldsExactlyWhen(b.fields, steps);
    TopLevelDecodes(ReplacedAll(b, steps).text);
  }

  /** A body built from fields re-encodes: it decodes to the fields, joined. */
  lemma FromFieldsDecodes(fields: seq<Entry>)
    requires Proper(Dict(fields))
    ensures Decode(FromFields(fields).text) == Some(Joined(Dict(fields)))
    ensures Decode(FromFields(fields).text) == Some(Dict(fields)) <==> Clean(Dict(fields))
  {
    RoundTrip(Dict(fields));
  }

  // ----- The edits, gathered and sorted -----

  function EditsFor(spans: seq<Span>, encoded: Text): seq<Edit> {
    seq(|spans|, i requires 0 <= i < |spans| => Edit(spans[i].start, spans[i].end, encoded))
  }

  function Gather(updates: seq<Entry>, spans: map<Text, seq<Span>>): seq<Edit>
    requires forall u :: u in updates ==> u.key in spans
    decreases |updates|
  {
    if updates == [] then []
    else EditsFor(spans[updates[0].key], Encode(updates[0].value)) + Gather(updates[1..], spans)
  }

  /** `sorted` of tuples whose first parts differ: by `start`. */
  function SortEdits(edits: seq<Edit>): seq<Edit> {
    if edits == [] then [] else InsertEdit(edits[0], SortEdits(edits[1..]))
  }

  function InsertEdit(e: Edit, sorted: seq<Edit>): seq<Edit> {
    if sorted == [] || e.start <= sorted[0].start then [e] + sorted
    else [sorted[0]] + InsertEdit(e, sorted[1..])
  }

  predicate ByStart(edits: seq<Edit>) {
    forall i, j :: 0 <= i < j < |edits| ==> edits[i].start <= edits[j].start
  }

  predicate StrictlyByStart(edits: seq<Edit>) {
    forall i, j :: 0 <= i < j < |edits| ==> edits[i].start < edits[j].start
  }

  lemma ByStartCons(e: Edit, rest: seq<Edit>)
    requires ByStart(rest) && forall x :: x in rest ==> e.start <= x.start
    ensures ByStart([e] + rest)
  {
    var all := [e] + rest;
    forall i, j | 0 <= i < j < |all| ensures all[i].start <= all[j].start {
      assert all[j] == rest[j - 1] && rest[j - 1] in rest;
      if i > 0 {
        assert all[i] == rest[i - 1];
      }
    }
  }

  lemma {:induction false} InsertSorts(e: Edit, sorted: seq<Edit>)
    requires ByStart(sorted)
    ensures ByStart(InsertEdit(e, sorted))
    ensures multiset(InsertEdit(e, sorted)) == multiset{e} + multiset(sorted)
    decreases |sorted|
  {
    if sorted == [] || e.start <= sorted[0].start {
      forall x | x in sorted ensures e.start <= x.start {
        var i :| 0 <= i < |sorted| && sorted[i] == x;
      }
      ByStartCons(e, sorted);
    } else {
      var rest := sorted[1..];
      assert sorted == [sorted[0]] + rest;
      assert ByStart(rest);
      InsertSorts(e, rest);
      forall x | x in InsertEdit(e, rest) ensures sorted[0].start <= x.start {
        assert x in multiset(InsertEdit(e, rest));
        if x in rest {
          var i :| 0 <= i < |rest| && rest[i] == x;
          assert sorted[i + 1] == x;
        }
      }
      ByStartCons(sorted[0], InsertEdit(e, rest));
    }
  }

  lemma {:induction false} SortSorts(edits: seq<Edit>)
    ensures ByStart(SortEdits(edits)) && multiset(SortEdits(edits)) == multiset(edits)
    decreases |edits|
  {
    if edits != [] {
      SortSorts(edits[1..]);
      InsertSorts(edits[0], SortEdits(edits[1..]));
      assert edits == [edits[0]] + edits[1..];
    }
  }

  lemma SameFirst(a: seq<Edit>, b: seq<Edit>)
    requires multiset(a) == multiset(b) && ByStart(a) && StrictlyByStart(b) && a != []
    ensures b != [] && a[0] == b[0]
  {
    assert a[0] in multiset(b);
    assert b[0] in multiset(a);
    var i :| 0 <= i < |b| && b[i] == a[0];
    var j :| 0 <= j < |a| && a[j] == b[0];
  }

  lemma WithoutFirst(a: seq<Edit>)
    requires a != []
    ensures multiset(a[1..]) == multiset(a) - multiset{a[0]}
    ensures ByStart(a) ==> ByStart(a[1..])
    ensures StrictlyByStart(a) ==> StrictlyByStart(a[1..])
  {
    assert a == [a[0]] + a[1..];
  }

  lemma Rejoined(a: seq<Edit>, b: seq<Edit>)
    requires a != [] && b != [] && a[0] == b[0]
    ensures a == b <==> a[1..] == b[1..]
  {
    assert a == [a[0]] + a[1..] && b == [b[0]] + b[1..];
  }

  /** There is one way to order edits that start at different places. */
  lemma {:induction false} SortedIsUnique(a: seq<Edit>, b: seq<Edit>)
    requires multiset(a) == multiset(b) && ByStart(a) && StrictlyByStart(b)
    ensures a == b
    decreases |a|
  {
    if a != [] {
      SameFirst(a, b);
      WithoutFirst(a);
      WithoutFirst(b);
      Rejoined(a, b);
      SortedIsUnique(a[1..], b[1..]);
      hide ByStart, StrictlyByStart;
    } else {
      assert |multiset(b)| == |b|;
    }
  }

  lemma {:induction false} EditsStrict(ms: seq<Member>, updates: seq<Entry>, limit: nat)
    requires Ordered(ms) && forall m :: m in ms ==> m.end <= limit
    ensures StrictlyByStart(EditsOf(ms, updates))
    decreases |ms|
  {
    hide Encode;
    if ms != [] {
      EditsStrict(ms[1..], updates, limit);
      EditsAfter(ms[1..], updates, limit);
      var rest, v := EditsOf(ms[1..], updates), Get(updates, ms[0].key);
      if v.Some? {
        var all := EditsOf(ms, updates);
        forall i, j | 0 <= i < j < |all| ensures all[i].start < all[j].start {
          assert all[j] == rest[j - 1] && rest[j - 1] in rest;
          if i > 0 {
            assert all[i] == rest[i - 1];
          }
        }
      }
    }
  }

  function GatherFor(updates: seq<Entry>, ms: seq<Member>): seq<Edit>
    decreases |updates|
  {
    if updates == [] then []
    else EditsFor(SpansFor(ms, updates[0].key), Encode(updates[0].value)) + GatherFor(updates[1..], ms)
  }

  lemma {:induction false} GatherIs(updates: seq<Entry>, ms: seq<Member>)
    requires forall u :: u in updates ==> u.key in SpansOf(ms)
    ensures Gather(updates, SpansOf(ms)) == GatherFor(updates, ms)
    decreases |updates|
  {
    hide Encode, SpansFor;
    if updates != [] {
      GatherIs(updates[1..], ms);
    }
  }

  function EditFor(updates: seq<Entry>, m: Member): seq<Edit> {
    var v := Get(updates, m.key);
    if v.Some? then [Edit(m.start, m.end, Encode(v.value))] else []
  }

  lemma {:induction false} GatherSnoc(updates: seq<Entry>, ms: seq<Member>, m: Member)
    requires DistinctKeys(updates)
    ensures multiset(GatherFor(updates, ms + [m])) == multiset(GatherFor(updates, ms)) + multiset(EditFor(updates, m))
    decreases |updates|
  {
    hide Encode, DistinctKeys;
    if updates != [] {
      var u, rest := updates[0], updates[1..];
      DistinctRest(updates);
      GatherSnoc(rest, ms, m);
      assert (ms + [m])[..|ms|] == ms;
      var enc := Encode(u.value);
      var own := if m.key == u.key then [Edit(m.start, m.end, enc)] else [];
      assert EditsFor(SpansFor(ms + [m], u.key), enc) == EditsFor(SpansFor(ms, u.key), enc) + own;
    }
  }

  lemma {:induction false} GatherNone(updates: seq<Entry>)
    ensures GatherFor(updates, []) == []
    decreases |updates|
  {
    if updates != [] {
      GatherNone(updates[1..]);
    }
  }

  lemma {:induction false} GatherHasEdits(updates: seq<Entry>, ms: seq<Member>)
    requires DistinctKeys(updates)
    ensures multiset(GatherFor(updates, ms)) == multiset(EditsOf(ms, updates))
    decreases |ms|
  {
    hide Encode, DistinctKeys, GatherFor;
    if ms == [] {
      GatherNone(updates);
    } else {
      var front, m := ms[..|ms| - 1], ms[|ms| - 1];
      assert ms == front + [m];
      GatherSnoc(updates, front, m);
      GatherHasEdits(updates, front);
      EditsSplit(ms, updates, |front|);
      assert ms[|front|..] == [m];
      assert EditsOf([m], updates) == EditFor(updates, m) + [];
    }
  }

  /** What `sorted` returns: the edits in the order of the text. */
  lemma SortedEdits(updates: seq<Entry>, ms: seq<Member>, limit: nat)
    requires Ordered(ms) && DistinctKeys(updates)
    requires forall m :: m in ms ==> m.end <= limit
    requires forall u :: u in updates ==> u.key in SpansOf(ms)
    ensures SortEdits(Gather(updates, SpansOf(ms))) == EditsOf(ms, updates)
  {
    hide Encode, DistinctKeys, Gather, GatherFor, SpansOf, SortEdits, Ordered;
    GatherIs(updates, ms);
    GatherHasEdits(updates, ms);
    SortSorts(Gather(updates, SpansOf(ms)));
    EditsStrict(ms, updates, limit);
    SortedIsUnique(SortEdits(Gather(updates, SpansOf(ms))), EditsOf(ms, updates));
  }

  // ----- The table of shifts -----

  /** `bisect_left` on an ascending list: how many leading elements lie below `x`. */
  function BisectLeft(a: seq<nat>, x: nat): (k: nat)
    ensures k <= |a|
  {
    if a == [] || a[0] >= x then 0 else 1 + BisectLeft(a[1..], x)
  }

  function Starts(edits: seq<Edit>): (r: seq<nat>)
    ensures |r| == |edits|
  {
    seq(|edits|, i requires 0 <= i < |edits| => edits[i].start)
  }

  /** The dictionary `{start: len(encoded)}`. */
  function ReplacedLengths(edits: seq<Edit>): map<nat, nat> {
    if edits == [] then map[]
    else ReplacedLengths(edits[..|edits| - 1])[edits[|edits| - 1].start := |edits[|edits| - 1].encoded|]
  }

  /** Entry k of the table: how far the text has moved by the start of edit k. */
  predicate IsShiftTable(table: seq<int>, edits: seq<Edit>) {
    |table| == |edits| + 1 && forall k :: 0 <= k <= |edits| ==> table[k] == GrowthSum(edits[..k])
  }

  /** A span's place by the table: one bisect, whatever the number of edits. */
  function Shifted(starts: seq<nat>, table: seq<int>, replaced: map<nat, nat>, span: Span): (r: Span)
    requires |table| == |starts| + 1
  {
    var start := span.start + table[BisectLeft(starts, span.start)];
    var length := if span.start in replaced then replaced[span.start] else span.end - span.start;
    Span(if start >= 0 then start else 0, if start + length >= 0 then start + length else 0)
  }

  /** The quadratic form the table replaced: the growth of every edit wholly before a place. */
  function NaiveShift(edits: seq<Edit>, place: nat): int {
    if edits == [] then 0
    else
      var last := edits[|edits| - 1];
      NaiveShift(edits[..|edits| - 1], place) + if last.end <= place then Growth(last) else 0
  }

  lemma {:induction false} NaiveAll(edits: seq<Edit>, place: nat)
    requires forall e :: e in edits ==> e.end <= place
    ensures NaiveShift(edits, place) == GrowthSum(edits)
    decreases |edits|
  {
    if edits != [] {
      assert edits[|edits| - 1] in edits;
      assert forall e :: e in edits[..|edits| - 1] ==> e in edits;
      NaiveAll(edits[..|edits| - 1], place);
    }
  }

  lemma {:induction false} NaiveApp(a: seq<Edit>, b: seq<Edit>, place: nat)
    requires forall e :: e in b ==> e.end > place
    ensures NaiveShift(a + b, place) == NaiveShift(a, place)
    decreases |b|
  {
    if b == [] {
      assert a + b == a;
    } else {
      var front := b[..|b| - 1];
      assert (a + b)[..|a + b| - 1] == a + front;
      assert b[|b| - 1] in b;
      assert forall e :: e in front ==> e in b;
      NaiveApp(a, front, place);
    }
  }

  lemma {:induction false} BisectSplits(a: seq<Edit>, b: seq<Edit>, x: nat)
    requires forall e :: e in a ==> e.start < x
    requires forall e :: e in b ==> x <= e.start
    ensures BisectLeft(Starts(a + b), x) == |a|
    decreases |a|
  {
    if a == [] {
      assert a + b == b;
      if b != [] {
        assert b[0] in b;
      }
    } else {
      assert a[0] in a && forall e :: e in a[1..] ==> e in a;
      assert (a + b)[1..] == a[1..] + b;
      assert Starts(a + b)[1..] == Starts(a[1..] + b);
      BisectSplits(a[1..], b, x);
    }
  }

  predicate HasLength(edits: seq<Edit>, e: Edit) {
    e.start in ReplacedLengths(edits) && ReplacedLengths(edits)[e.start] == |e.encoded|
  }

  lemma {:induction false} LengthsOf(edits: seq<Edit>, x: nat)
    ensures x in ReplacedLengths(edits) <==> exists k :: 0 <= k < |edits| && edits[k].start == x
    ensures StrictlyByStart(edits) ==>
              forall k | 0 <= k < |edits| :: HasLength(edits, edits[k])
    decreases |edits|
  {
    if edits != [] {
      var front, last := edits[..|edits| - 1], edits[|edits| - 1];
      LengthsOf(front, x);
      if x in ReplacedLengths(front) {
        var k :| 0 <= k < |front| && front[k].start == x;
        assert edits[k].start == x;
      }
      if StrictlyByStart(edits) {
        assert StrictlyByStart(front);
        forall k | 0 <= k < |edits|
          ensures HasLength(edits, edits[k])
        {
          if k < |front| {
            assert HasLength(front, front[k]);
            assert front[k] == edits[k] && edits[k].start < last.start;
          }
        }
      }
    }
  }

  lemma {:induction false} EditsBefore(ms: seq<Member>, updates: seq<Entry>, j: nat)
    requires Ordered(ms) && j < |ms|
    ensures forall e :: e in EditsOf(ms[..j], updates) ==> e.start < e.end <= ms[j].start
    ensures Ordered(ms[j..])
    decreases j
  {
    hide Encode;
    if j == 0 {
      assert ms[..0] == [] && ms[0..] == ms;
    } else {
      EditsBefore(ms[1..], updates, j - 1);
      assert ms[..j][1..] == ms[1..][..j - 1] && ms[j..] == ms[1..][j - 1..];
      StartsAscend(ms, j);
    }
  }

  lemma {:induction false} StartsAscend(ms: seq<Member>, j: nat)
    requires Ordered(ms) && 0 < j < |ms|
    ensures ms[0].end <= ms[j].start
    decreases j
  {
    if j > 1 {
      StartsAscend(ms[1..], j - 1);
    }
  }

  lemma EditsFrom(ms: seq<Member>, updates: seq<Entry>, limit: nat)
    requires ms != [] && Ordered(ms) && forall m :: m in ms ==> m.end <= limit
    ensures var m := ms[0];
            var edits := EditsOf(ms, updates);
            && (forall e :: e in edits ==> m.start <= e.start && m.start < e.end)
            && if Get(updates, m.key).Some?
               then edits != [] && edits[0] == Edit(m.start, m.end, Encode(Get(updates, m.key).value))
               else forall e :: e in edits ==> m.start < e.start
  {
    hide Encode;
    EditsAfter(ms, updates, limit);
    EditsAfter(ms[1..], updates, limit);
  }

  /** For every member: the table's shift is the naive sum, and the shifted span is where a
      fresh parse of the spliced text finds the value. */
  lemma TableIsExact(ms: seq<Member>, updates: seq<Entry>, table: seq<int>, j: nat, limit: nat)
    requires Ordered(ms) && j < |ms| && forall m :: m in ms ==> m.end <= limit
    requires IsShiftTable(table, EditsOf(ms, updates))
    ensures var edits := EditsOf(ms, updates);
            var span := Span(ms[j].start, ms[j].end);
            var r := Moved(ms, updates, 0)[j];
            && table[BisectLeft(Starts(edits), span.start)] == NaiveShift(edits, span.start)
            && Shifted(Starts(edits), table, ReplacedLengths(edits), span) == Span(r.start, r.end)
  {
    hide Encode, Moved, EditsOf, Ordered, Joined, BisectLeft, GrowthSum, NaiveShift, Get, ReplacedLengths, StrictlyByStart;
    var edits, m := EditsOf(ms, updates), ms[j];
    var a, b := EditsOf(ms[..j], updates), EditsOf(ms[j..], updates);
    EditsSplit(ms, updates, j);
    EditsBefore(ms, updates, j);
    EditsFrom(ms[j..], updates, limit);
    BisectSplits(a, b, m.start);
    assert edits[..|a|] == a;
    NaiveAll(a, m.start);
    NaiveApp(a, b, m.start);
    MovedAt(ms, updates, 0, j);
    EditsStrict(ms, updates, limit);
    LengthsOf(edits, m.start);
    if Get(updates, m.key).Some? {
      assert edits[|a|] == b[0] && HasLength(edits, edits[|a|]);
    } else {
      forall k | 0 <= k < |edits| ensures edits[k].start != m.start {
        if k < |a| {
          assert edits[k] in a;
        } else {
          assert edits[k] == b[k - |a|] && edits[k] in b;
        }
      }
    }
  }

  // ----- The method -----

  function ShiftedSpans(starts: seq<nat>, table: seq<int>, replaced: map<nat, nat>, spans: seq<Span>): seq<Span>
    requires |table| == |starts| + 1
  {
    seq(|spans|, i requires 0 <= i < |spans| => Shifted(starts, table, replaced, spans[i]))
  }

  lemma {:induction false} SpansShift(ms: seq<Member>, rs: seq<Member>, key: Text,
                                      starts: seq<nat>, table: seq<int>, replaced: map<nat, nat>)
    requires |table| == |starts| + 1 && |rs| == |ms|
    requires forall j :: 0 <= j < |ms| ==>
               rs[j].key == ms[j].key
               && Span(rs[j].start, rs[j].end) == Shifted(starts, table, replaced, Span(ms[j].start, ms[j].end))
    ensures ShiftedSpans(starts, table, replaced, SpansFor(ms, key)) == SpansFor(rs, key)
    decreases |ms|
  {
    hide Shifted;
    if ms != [] {
      SpansShift(ms[..|ms| - 1], rs[..|rs| - 1], key, starts, table, replaced);
    }
  }

  lemma AllSpansShift(ms: seq<Member>, updates: seq<Entry>, table: seq<int>, limit: nat)
    requires Ordered(ms) && forall m :: m in ms ==> m.end <= limit
    requires IsShiftTable(table, EditsOf(ms, updates))
    ensures var edits := EditsOf(ms, updates);
            (map key | key in SpansOf(ms) :: ShiftedSpans(Starts(edits), table, ReplacedLengths(edits), SpansOf(ms)[key]))
            == SpansOf(Moved(ms, updates, 0))
  {
    hide Encode, Moved, EditsOf, Ordered, Joined, BisectLeft, GrowthSum, NaiveShift, Get, Shifted, SpansFor, ReplacedLengths, Starts, ShiftedSpans;
    var edits, rs := EditsOf(ms, updates), Moved(ms, updates, 0);
    forall j | 0 <= j < |ms|
      ensures rs[j].key == ms[j].key
      ensures Span(rs[j].start, rs[j].end) ==
              Shifted(Starts(edits), table, ReplacedLengths(edits), Span(ms[j].start, ms[j].end))
    {
      MovedAt(ms, updates, 0, j);
      TableIsExact(ms, updates, table, j, limit);
    }
    SameKeys(ms, rs);
    forall key | key in KeysOf(ms)
      ensures ShiftedSpans(Starts(edits), table, ReplacedLengths(edits), SpansFor(ms, key)) == SpansFor(rs, key)
    {
      SpansShift(ms, rs, key, Starts(edits), table, ReplacedLengths(edits));
    }
  }

  function Concat(parts: seq<Text>): Text {
    if parts == [] then [] else Concat(parts[..|parts| - 1]) + parts[|parts| - 1]
  }

  lemma ConcatTwo(parts: seq<Text>, a: Text, b: Text)
    ensures Concat(parts + [a, b]) == Concat(parts) + a + b
  {
    assert (parts + [a, b])[..|parts| + 1] == parts + [a];
    assert (parts + [a])[..|parts|] == parts;
  }

  lemma ConcatOne(parts: seq<Text>, a: Text)
    ensures Concat(parts + [a]) == Concat(parts) + a
  {
    assert (parts + [a])[..|parts|] == parts;
  }

  predicate Spaced(edits: seq<Edit>, limit: nat) {
    && (forall k :: 0 <= k < |edits| ==> edits[k].start < edits[k].end <= limit)
    && (forall j, k :: 0 <= j < k < |edits| ==> edits[j].end <= edits[k].start)
  }

  lemma {:induction false} EditsSpaced(ms: seq<Member>, updates: seq<Entry>, limit: nat)
    requires Ordered(ms) && forall m :: m in ms ==> m.end <= limit
    ensures Spaced(EditsOf(ms, updates), limit)
    decreases |ms|
  {
    hide Encode;
    if ms != [] {
      EditsSpaced(ms[1..], updates, limit);
      EditsAfter(ms, updates, limit);
      EditsAfter(ms[1..], updates, limit);
      var all, rest := EditsOf(ms, updates), EditsOf(ms[1..], updates);
      hide Get, Ordered;
      if Get(updates, ms[0].key).Some? {
        forall j, k | 0 <= j < k < |all| ensures all[j].end <= all[k].start {
          assert all[k] == rest[k - 1] && rest[k - 1] in rest;
          if j > 0 {
            assert all[j] == rest[j - 1];
          }
        }
      }
    }
  }

  lemma SumSnoc(edits: seq<Edit>, k: nat)
    requires k < |edits|
    ensures GrowthSum(edits[..k + 1]) == GrowthSum(edits[..k]) + Growth(edits[k])
  {
    assert edits[..k + 1][..k] == edits[..k];
  }

  /** The edit loop of `replace_top_level`: the spliced text and the table of shifts. */
  method Splice(source: Text, edits: seq<Edit>) returns (text: Text, shiftBefore: seq<int>)
    requires Spaced(edits, |source|)
    ensures text == Build(source, 0, edits)
    ensures IsShiftTable(shiftBefore, edits)
  {
    hide GrowthSum, Concat;
    var parts: seq<Text> := [];
    var pos: nat, shift := 0, 0;
    shiftBefore := [];
    assert edits[0..] == edits && Concat([]) == [] && GrowthSum(edits[..0]) == 0 by {
      NoGrowth(edits);
    }
    for k := 0 to |edits|
      invariant pos <= |source| && (k < |edits| ==> pos <= edits[k].start)
      invariant k > 0 ==> pos == edits[k - 1].end
      invariant Concat(parts) + Build(source, pos, edits[k..]) == Build(source, 0, edits)
      invariant |shiftBefore| == k && shift == GrowthSum(edits[..k])
      invariant forall j :: 0 <= j < k ==> shiftBefore[j] == GrowthSum(edits[..j])
    {
      var e := edits[k];
      BuildTurn(source, pos, edits[k..], parts);
      assert edits[k..][1..] == edits[k + 1..];
      SumSnoc(edits, k);
      hide Build, IsShiftTable;
      parts := parts + [source[pos..e.start], e.encoded];
      pos := e.end;
      shiftBefore := shiftBefore + [shift];
      shift := shift + |e.encoded| - (e.end - e.start);
    }
    shiftBefore := shiftBefore + [shift];
    ConcatOne(parts, source[pos..]);
    assert edits[|edits|..] == [] && edits[..|edits|] == edits;
    parts := parts + [source[pos..]];
    text := Concat(parts);
  }

  lemma NoGrowth(edits: seq<Edit>)
    ensures Concat([]) == [] && GrowthSum(edits[..0]) == 0
  {
  }

  lemma BuildTurn(source: Text, pos: nat, edits: seq<Edit>, parts: seq<Text>)
    requires edits != [] && pos <= edits[0].start <= |source|
    ensures Concat(parts) + Build(source, pos, edits) ==
            Concat(parts + [source[pos..edits[0].start], edits[0].encoded]) + Build(source, edits[0].end, edits[1..])
  {
    hide Concat;
    ConcatTwo(parts, source[pos..edits[0].start], edits[0].encoded);
  }

  method ReplaceTopLevel(b: JsonBody, updates: seq<Entry>) returns (r: JsonBody)
    requires WellMade(b) && ProperUpdates(updates)
    ensures r == Replaced(b, updates)
  {
    hide TopLevel, Encode, Moved, EditsOf, Ordered, SpansOf, Build, Gather, SortEdits, PutAll, ShiftedSpans, Starts, ReplacedLengths, IsShiftTable, Spaced;
    if exists u :: u in updates && u.key !in b.spans {
      return FromFields(PutAll(b.fields, updates));
    }
    var edits := SortEdits(Gather(updates, b.spans));
    ghost var ms := [];
    if Located(b) {
      ms := TopLevel(b.text).value;
      SpansAreExact(b.text);
    } else {
      if updates != [] {
        NoneLocated(b, updates);
      }
      PutNothing(b.fields);
      SpansKeys([]);
      NoMembers(b.text, updates);
    }
    SortedEdits(updates, ms, |b.text|);
    EditsSpaced(ms, updates, |b.text|);
    var text, shiftBefore := Splice(b.text, edits);
    var starts, replaced := Starts(edits), ReplacedLengths(edits);
    AllSpansShift(ms, updates, shiftBefore, |b.text|);
    assert |shiftBefore| == |starts| + 1 by {
      TableLength(shiftBefore, edits);
    }
    var spans := map key | key in b.spans :: ShiftedSpans(starts, shiftBefore, replaced, b.spans[key]);
    return JsonBody(PutAll(b.fields, updates), text, spans);
  }

  lemma NoneLocated(b: JsonBody, updates: seq<Entry>)
    requires b.spans == map[] && updates != []
    ensures !AllLocated(b, updates)
  {
    assert updates[0] in updates;
  }

  lemma PutNothing(d: seq<Entry>)
    ensures PutAll(d, []) == d
  {
  }

  lemma TableLength(table: seq<int>, edits: seq<Edit>)
    requires IsShiftTable(table, edits)
    ensures |table| == |edits| + 1
  {
  }

  lemma NoMembers(t: Text, updates: seq<Entry>)
    ensures Ordered([]) && EditsOf([], updates) == [] && Build(t, 0, []) == t && Moved([], updates, 0) == []
  {
    assert t[0..] == t;
  }
}
