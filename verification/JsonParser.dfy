/** The loop of `parse_object` (`util/json_body.py`), one member of the object at a time. */
module JsonParser {
  import opened JsonBodies
  import opened JsonGrammar
  import opened JsonScanner
  import opened JsonTrees
  import opened Options

  method ParseObject(text: Text) returns (r: Result<JsonBody>)
    ensures r.Ok? ==> r.value.text == text && IsParsed(r.value) && Writes(Dict(r.value.fields), text)
    ensures r == Err(NotAnObject) <==> exists v: Value :: Writes(v, text) && !v.Dict?
    ensures r == Err(Malformed) <==> forall v: Value :: !Writes(v, text)
  {
    SpelledOnce(text);
    hide Writes, ScanMembers, Decode, ScanValue, ScanItems, ScanString, SkipWs, FieldsOf, SpansOf, ScanAtom, Put;
    TopLevelDecodes(text);
    var i := SkipWs(text, 0);
    if i >= |text| || text[i] != LBRACE {
      r := Err(if Decode(text).None? then Malformed else NotAnObject);
      return;
    }
    var fields: seq<Entry>, spans: map<Text, seq<Span>> := [], map[];
    ghost var done: seq<Member> := [];
    NothingRecorded();
    i := SkipWs(text, i + 1);
    if i < |text| && text[i] == RBRACE {
      i := i + 1;
    } else {
      ghost var first := i;
      PrefixedNone(ScanMembers(text, first));
      while true
        invariant first <= i <= |text|
        invariant fields == FieldsOf(done) && spans == SpansOf(done)
        invariant ScanMembers(text, first) == Prefixed(done, ScanMembers(text, i))
        decreases |text| - i
      {
        MembersStep(text, i);
        if i >= |text| || text[i] != QUOTE {
          return Err(Malformed);
        }
        var key := ScanValue(text, i);
        if key.Fail? {
          return Err(Malformed);
        }
        i := SkipWs(text, key.end);
        if i >= |text| || text[i] != COLON {
          return Err(Malformed);
        }
        var start := SkipWs(text, i + 1);
        var value := ScanValue(text, start);
        if value.Fail? {
          return Err(Malformed);
        }
        ghost var member := Member(key.value.text, value.value, start, value.end);
        RecordField(done, member);
        RecordSpan(done, member);
        fields := Put(fields, key.value.text, value.value);
        spans := spans[key.value.text :=
          (if key.value.text in spans then spans[key.value.text] else []) + [Span(start, value.end)]];
        i := SkipWs(text, value.end);
        if i < |text| && text[i] == COMMA {
          i := SkipWs(text, i + 1);
          PrefixedStep(done, member, ScanMembers(text, i));
          done := done + [member];
        } else if i < |text| && text[i] == RBRACE {
          i := i + 1;
          done := done + [member];
          break;
        } else {
          return Err(Malformed);
        }
      }
    }
    if SkipWs(text, i) != |text| {
      return Err(Malformed);
    }
    return Ok(JsonBody(fields, text, spans));
  }

  /** What a span holds is the value's own text and nothing around it. */
  lemma SpansSpellValues(t: Text)
    requires TopLevel(t).Some?
    ensures forall m :: m in TopLevel(t).value ==> m.start < m.end <= |t| && Spells(m.value, t[m.start..m.end])
  {
    SpansAreExact(t);
    hide TopLevel, ScanValue, Ordered, Legal, Show, Mean;
    forall m | m in TopLevel(t).value ensures Spells(m.value, t[m.start..m.end]) {
      var d := TreeFrom(t, m.start);
    }
  }

  lemma PrefixedNone(r: Scan<seq<Member>>)
    ensures Prefixed([], r) == r
  {
    if r.Done? {
      assert [] + r.value == r.value;
    }
  }

  lemma PrefixedStep(done: seq<Member>, m: Member, r: Scan<seq<Member>>)
    ensures Prefixed(done, Prefixed([m], r)) == Prefixed(done + [m], r)
  {
    if r.Done? {
      assert done + ([m] + r.value) == (done + [m]) + r.value;
    }
  }

  /** One turn of the member scan, in the terms the loop uses. */
  lemma MembersStep(t: Text, i: nat)
    requires i <= |t|
    ensures i >= |t| || t[i] != QUOTE ==> ScanMembers(t, i).Fail?
    ensures i < |t| && t[i] == QUOTE ==>
              var key := ScanValue(t, i);
              if key.Fail? then ScanMembers(t, i).Fail?
              else
                && key.value.Str?
                && var c := SkipWs(t, key.end);
                if c >= |t| || t[c] != COLON then ScanMembers(t, i).Fail?
                else
                  var start := SkipWs(t, c + 1);
                  var v := ScanValue(t, start);
                  if v.Fail? then ScanMembers(t, i).Fail?
                  else
                    var m := Member(key.value.text, v.value, start, v.end);
                    var n := SkipWs(t, v.end);
                    if n < |t| && t[n] == COMMA then
                      ScanMembers(t, i) == Prefixed([m], ScanMembers(t, SkipWs(t, n + 1)))
                    else if n < |t| && t[n] == RBRACE then ScanMembers(t, i) == Done([m], n + 1)
                    else ScanMembers(t, i).Fail?
  {
    hide ScanItems, ScanAtom, ScanString, SkipWs, FieldsOf;
    if i < |t| && t[i] == QUOTE {
      var key := ScanValue(t, i);
      assert key.Fail? <==> ScanString(t, i + 1).Fail?;
      if key.Done? {
        assert ScanString(t, i + 1) == Done(key.value.text, key.end);
        var c := SkipWs(t, key.end);
        if c < |t| && t[c] == COLON {
          var v := ScanValue(t, SkipWs(t, c + 1));
          if v.Done? {
            assert ScanMember(t, i) == Done(Member(key.value.text, v.value, SkipWs(t, c + 1), v.end), v.end);
          }
        }
      }
    }
  }
}
