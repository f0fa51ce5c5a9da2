/** The fields of an object after some of its values were replaced. */
module JsonFields {
  import opened JsonBodies
  import opened JsonEdits
  import opened JsonEncoder
  import opened JsonScanner
  import opened Options

  lemma {:induction false} PutTwice(d: seq<Entry>, key: Text, v: Value, w: Value)
    ensures Put(Put(d, key, v), key, w) == Put(d, key, w)
    decreases |d|
  {
    if d != [] && d[0].key != key {
      PutTwice(d[1..], key, v, w);
    }
  }

  lemma {:induction false} PutKeepsKeys(d: seq<Entry>, key: Text, v: Value, other: Text)
    ensures HasKey(Put(d, key, v), other) <==> HasKey(d, other) || other == key
    decreases |d|
  {
    if d == [] {
      assert Put(d, key, v)[0].key == key;
    } else if d[0].key == key {
      assert Put(d, key, v) == [Entry(key, v)] + d[1..];
      assert forall i :: 0 <= i < |d| ==> Put(d, key, v)[i].key == d[i].key;
    } else {
      PutKeepsKeys(d[1..], key, v, other);
      HasKeyCons(d[0], d[1..], other);
      HasKeyCons(d[0], Put(d[1..], key, v), other);
      assert d == [d[0]] + d[1..];
    }
  }

  lemma HasKeyCons(e: Entry, d: seq<Entry>, key: Text)
    ensures HasKey([e] + d, key) <==> e.key == key || HasKey(d, key)
  {
    var all := [e] + d;
    assert all[0] == e && forall i :: 0 <= i < |d| ==> all[i + 1] == d[i];
    if HasKey(all, key) && e.key != key {
      var i :| 0 <= i < |all| && all[i].key == key;
      assert d[i - 1].key == key;
    }
  }

  /** Two keys can be set in either order when one of them is already there. */
  lemma {:induction false} PutSwap(d: seq<Entry>, a: Text, v: Value, b: Text, w: Value)
    requires a != b && HasKey(d, a)
    ensures Put(Put(d, a, v), b, w) == Put(Put(d, b, w), a, v)
    decreases |d|
  {
    assert d == [d[0]] + d[1..];
    HasKeyCons(d[0], d[1..], a);
    if d[0].key != a && d[0].key != b {
      PutSwap(d[1..], a, v, b, w);
    }
  }

  /** Replacing the value of every member under one key sets that key's field. */
  function SetValue(ms: seq<Member>, key: Text, v: Value): (r: seq<Member>)
    ensures |r| == |ms|
  {
    seq(|ms|, i requires 0 <= i < |ms| => if ms[i].key == key then ms[i].(value := v) else ms[i])
  }

  lemma {:induction false} FieldsHaveKeys(ms: seq<Member>, key: Text)
    ensures HasKey(FieldsOf(ms), key) <==> key in KeysOf(ms)
    decreases |ms|
  {
    if ms == [] {
      NothingRecorded();
    } else {
      var front, m := ms[..|ms| - 1], ms[|ms| - 1];
      assert ms == front + [m];
      RecordField(front, m);
      FieldsHaveKeys(front, key);
      PutKeepsKeys(FieldsOf(front), m.key, m.value, key);
      assert KeysOf(ms) == KeysOf(front) + {m.key};
    }
  }

  lemma {:induction false} SetValueFields(ms: seq<Member>, key: Text, v: Value)
    requires key in KeysOf(ms)
    ensures FieldsOf(SetValue(ms, key, v)) == Put(FieldsOf(ms), key, v)
    decreases |ms|
  {
    hide FieldsOf, Put;
    var front, m := ms[..|ms| - 1], ms[|ms| - 1];
    assert ms == front + [m];
    var m' := if m.key == key then m.(value := v) else m;
    assert SetValue(ms, key, v) == SetValue(front, key, v) + [m'];
    RecordField(front, m);
    RecordField(SetValue(front, key, v), m');
    if key in KeysOf(front) {
      SetValueFields(front, key, v);
      FieldsHaveKeys(front, key);
      if m.key == key {
        PutTwice(FieldsOf(front), key, v, v);
        PutTwice(FieldsOf(front), key, m.value, v);
      } else {
        PutSwap(FieldsOf(front), key, v, m.key, m.value);
      }
    } else {
      assert m.key == key by {
        assert KeysOf(ms) == KeysOf(front) + {m.key};
      }
      assert SetValue(front, key, v) == front by {
        assert forall i :: 0 <= i < |front| ==> front[i].key in KeysOf(front);
      }
      PutTwice(FieldsOf(front), key, m.value, v);
    }
  }

  function JoinedValues(updates: seq<Entry>): (r: seq<Entry>)
    ensures |r| == |updates|
  {
    seq(|updates|, i requires 0 <= i < |updates| => Entry(updates[i].key, Joined(updates[i].value)))
  }

  function SetAll(ms: seq<Member>, updates: seq<Entry>): seq<Member>
    decreases |updates|
  {
    if updates == [] then ms else SetAll(SetValue(ms, updates[0].key, updates[0].value), updates[1..])
  }

  lemma {:induction false} SetAllFields(ms: seq<Member>, updates: seq<Entry>)
    requires forall u :: u in updates ==> u.key in KeysOf(ms)
    ensures FieldsOf(SetAll(ms, updates)) == PutAll(FieldsOf(ms), updates)
    decreases |updates|
  {
    hide FieldsOf, Put, SetValue;
    if updates != [] {
      var u := updates[0];
      SetValueFields(ms, u.key, u.value);
      SetValueKeys(ms, u.key, u.value);
      SetAllFields(SetValue(ms, u.key, u.value), updates[1..]);
    }
  }

  lemma SetValueKeys(ms: seq<Member>, key: Text, v: Value)
    ensures KeysOf(SetValue(ms, key, v)) == KeysOf(ms)
  {
    var r := SetValue(ms, key, v);
    forall k ensures k in KeysOf(r) <==> k in KeysOf(ms) {
      if k in KeysOf(ms) {
        var i :| 0 <= i < |ms| && ms[i].key == k;
        assert r[i].key == k;
      }
      if k in KeysOf(r) {
        var i :| 0 <= i < |r| && r[i].key == k;
        assert ms[i].key == k;
      }
    }
  }

  /** Every member after setting several keys: its own key, and the update's value if there is one. */
  lemma {:induction false} SetAllAt(ms: seq<Member>, updates: seq<Entry>, i: nat)
    requires i < |ms| && DistinctKeys(updates)
    ensures |SetAll(ms, updates)| == |ms|
    ensures SetAll(ms, updates)[i].key == ms[i].key
    ensures SetAll(ms, updates)[i].value ==
            if Get(updates, ms[i].key).Some? then Get(updates, ms[i].key).value else ms[i].value
    decreases |updates|
  {
    if updates != [] {
      var u, rest := updates[0], updates[1..];
      assert DistinctKeys(rest) by {
        assert forall a, b :: 0 <= a < b < |rest| ==> rest[a] == updates[a + 1] && rest[b] == updates[b + 1];
      }
      SetAllAt(SetValue(ms, u.key, u.value), rest, i);
      if ms[i].key == u.key {
        GetAbsent(rest, u.key);
      }
    }
  }

  lemma {:induction false} GetAbsent(d: seq<Entry>, key: Text)
    requires forall i :: 0 <= i < |d| ==> d[i].key != key
    ensures Get(d, key).None?
    decreases |d|
  {
    if d != [] {
      GetAbsent(d[1..], key);
    }
  }
}
