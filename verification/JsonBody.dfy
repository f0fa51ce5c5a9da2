/** A JSON object body that is rewritten by splicing (`util/json_body.py`): what is recorded of it.

    `JsonParser.ParseObject` walks the top-level members itself, one call of the value scanner
    each, and records where every value sits; `JsonSplices.ReplaceTopLevel` edits the text at
    those offsets and moves them along. */
module JsonBodies {
  import opened JsonScanner
  import opened Options

  datatype Span = Span(start: nat, end: nat)

  /** `text` stands for `raw` decoded; `spans` is empty for a body built from fields. */
  datatype JsonBody = JsonBody(fields: seq<Entry>, text: Text, spans: map<Text, seq<Span>>)

  datatype ParseError = Malformed | NotAnObject
  datatype Result<+T> = Ok(value: T) | Err(error: ParseError)

  // ----- The members of a document, and what is recorded of them -----

  /** The top-level members of a text that is an object and nothing else. */
  function TopLevel(t: Text): Option<seq<Member>> {
    var i := SkipWs(t, 0);
    if i >= |t| || t[i] != LBRACE then None
    else
      var j := SkipWs(t, i + 1);
      if j < |t| && t[j] == RBRACE then
        if SkipWs(t, j + 1) == |t| then Some([]) else None
      else
        var ms := ScanMembers(t, j);
        if ms.Done? && SkipWs(t, ms.end) == |t| then Some(ms.value) else None
  }

  function SpansFor(ms: seq<Member>, key: Text): seq<Span> {
    if ms == [] then []
    else
      var m := ms[|ms| - 1];
      SpansFor(ms[..|ms| - 1], key) + if m.key == key then [Span(m.start, m.end)] else []
  }

  function KeysOf(ms: seq<Member>): set<Text> {
    set m | m in ms :: m.key
  }

  function SpansOf(ms: seq<Member>): map<Text, seq<Span>> {
    map key | key in KeysOf(ms) :: SpansFor(ms, key)
  }

  /** `spans` is what a parse of `text` records, whether or not one was run. */
  predicate Located(b: JsonBody) {
    TopLevel(b.text).Some? && b.spans == SpansOf(TopLevel(b.text).value)
  }

  /** The body is what a parse of its own text gives. */
  predicate IsParsed(b: JsonBody) {
    Located(b) && b.fields == FieldsOf(TopLevel(b.text).value)
  }

  lemma TopLevelDecodes(t: Text)
    ensures TopLevel(t).Some? <==> Decode(t).Some? && Decode(t).value.Dict?
    ensures TopLevel(t).Some? ==> Decode(t) == Some(Dict(FieldsOf(TopLevel(t).value)))
    ensures SkipWs(t, 0) < |t| && t[SkipWs(t, 0)] == LBRACE && Decode(t).Some? ==> Decode(t).value.Dict?
  {
    hide ScanMembers, ScanItems, ScanString, SkipWs;
    var i := SkipWs(t, 0);
    if i < |t| && t[i] !in {QUOTE, LBRACE, LBRACKET} {
      if ScanAtom(t, i).Done? {
        AtomIsNoDict(t, i);
      }
    }
    NoFields();
  }

  lemma NoFields()
    ensures FieldsOf([]) == []
  {
  }

  lemma AtomIsNoDict(t: Text, i: nat)
    requires i < |t| && ScanAtom(t, i).Done?
    ensures !ScanAtom(t, i).value.Dict?
  {
  }

  function Prefixed(done: seq<Member>, r: Scan<seq<Member>>): Scan<seq<Member>> {
    if r.Fail? then Fail else Done(done + r.value, r.end)
  }

  lemma RecordField(ms: seq<Member>, m: Member)
    ensures FieldsOf(ms + [m]) == Put(FieldsOf(ms), m.key, m.value)
  {
    hide Put;
    assert Strip(ms + [m]) == Strip(ms) + [Entry(m.key, m.value)];
    assert (Strip(ms) + [Entry(m.key, m.value)])[..|ms|] == Strip(ms);
  }

  lemma RecordSpan(ms: seq<Member>, m: Member)
    ensures SpansOf(ms + [m]) ==
            SpansOf(ms)[m.key := (if m.key in SpansOf(ms) then SpansOf(ms)[m.key] else []) + [Span(m.start, m.end)]]
  {
    assert (ms + [m])[..|ms|] == ms;
    assert KeysOf(ms + [m]) == KeysOf(ms) + {m.key};
    if m.key !in KeysOf(ms) {
      NoSpans(ms, m.key);
    }
    var after := SpansOf(ms)[m.key := (if m.key in SpansOf(ms) then SpansOf(ms)[m.key] else []) + [Span(m.start, m.end)]];
    assert SpansOf(ms + [m]).Keys == after.Keys;
    forall key | key in after.Keys ensures SpansOf(ms + [m])[key] == after[key] {
      assert SpansFor(ms + [m], key) == SpansFor(ms, key) + if m.key == key then [Span(m.start, m.end)] else [];
    }
  }

  lemma {:induction false} NoSpans(ms: seq<Member>, key: Text)
    requires key !in KeysOf(ms)
    ensures SpansFor(ms, key) == []
    decreases |ms|
  {
    if ms != [] {
      assert ms[|ms| - 1].key in KeysOf(ms);
      assert KeysOf(ms[..|ms| - 1]) <= KeysOf(ms);
      NoSpans(ms[..|ms| - 1], key);
    }
  }

  lemma NothingRecorded()
    ensures FieldsOf([]) == [] && SpansOf([]) == map[]
  {
    assert KeysOf([]) == {};
  }

  // ----- Order of the recorded offsets -----

  predicate Ordered(ms: seq<Member>) {
    if ms == [] then true
    else ms[0].start < ms[0].end && (|ms| > 1 ==> ms[0].end <= ms[1].start) && Ordered(ms[1..])
  }

  lemma {:induction false} MembersOrdered(t: Text, i: nat)
    requires i <= |t| && ScanMembers(t, i).Done?
    ensures Ordered(ScanMembers(t, i).value) && i < ScanMembers(t, i).value[0].start
    ensures forall m :: m in ScanMembers(t, i).value ==> m.start < m.end <= |t| && ScanValue(t, m.start) == Done(m.value, m.end)
    decreases |t| - i
  {
    hide ScanMember, ScanValue, SkipWs;
    var m := ScanMember(t, i);
    var n := SkipWs(t, m.end);
    if t[n] == COMMA {
      MembersOrdered(t, SkipWs(t, n + 1));
    }
  }

  /** The recorded offsets are in order, apart and non-empty, and each spans text that decodes
      to the member's value. */
  lemma SpansAreExact(t: Text)
    requires TopLevel(t).Some?
    ensures Ordered(TopLevel(t).value)
    ensures forall m :: m in TopLevel(t).value ==> m.start < m.end <= |t| && ScanValue(t, m.start) == Done(m.value, m.end)
  {
    hide ScanMembers, ScanValue, SkipWs;
    var j := SkipWs(t, SkipWs(t, 0) + 1);
    if j >= |t| || t[j] != RBRACE {
      MembersOrdered(t, j);
    }
  }
}
