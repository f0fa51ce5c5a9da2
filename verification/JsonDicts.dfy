/** Dictionaries read and written whole: which of several values of a key counts, and the body
    that `replace_top_level` encodes anew when a key has no span. */
module JsonDicts {
  import opened JsonBodies
  import opened JsonEdits
  import opened JsonEncoder
  import opened JsonFields
  import opened JsonScanner
  import opened JsonSplices
  import opened Options

  // ----- Repeated keys -----

  /** Of the values given to a key the last one counts. */
  lemma {:induction false} LastValueWins(es: seq<Entry>, i: nat)
    requires i < |es| && forall j :: i < j < |es| ==> es[j].key != es[i].key
    ensures Get(FromEntries(es), es[i].key) == Some(es[i].value)
    decreases |es|
  {
    hide Put, Get;
    var front, last := es[..|es| - 1], es[|es| - 1];
    GetPut(FromEntries(front), last.key, last.value, es[i].key);
    if i < |front| {
      LastValueWins(front, i);
    }
  }

  /** Where a key first stands; the length of the list if it stands nowhere. */
  function FirstOf(es: seq<Entry>, key: Text): (i: nat)
    ensures i <= |es|
  {
    if es == [] || es[0].key == key then 0 else 1 + FirstOf(es[1..], key)
  }

  lemma {:induction false} FirstOfSnoc(es: seq<Entry>, e: Entry, key: Text)
    ensures FirstOf(es, key) < |es| <==> HasKey(es, key)
    ensures FirstOf(es + [e], key) == if HasKey(es, key) then FirstOf(es, key) else if e.key == key then |es| else |es| + 1
    decreases |es|
  {
    if es == [] {
      assert es + [e] == [e];
    } else {
      assert es == [es[0]] + es[1..] && es + [e] == [es[0]] + (es[1..] + [e]);
      HasKeyCons(es[0], es[1..], key);
      FirstOfSnoc(es[1..], e, key);
      assert (es + [e])[1..] == es[1..] + [e];
      hide HasKey;
    }
  }

  /** Every key that was given is there once, in the order in which the keys first stood. */
  lemma {:induction false} KeysKeepTheirPlaces(es: seq<Entry>)
    ensures forall key :: HasKey(FromEntries(es), key) <==> HasKey(es, key)
    ensures var d := FromEntries(es);
            && DistinctKeys(d)
            && forall i, j :: 0 <= i < j < |d| ==> FirstOf(es, d[i].key) < FirstOf(es, d[j].key)
    decreases |es|
  {
    EntriesDistinct(es);
    if es != [] {
      var front, last := es[..|es| - 1], es[|es| - 1];
      KeysKeepTheirPlaces(front);
      assert es == front + [last] && FromEntries(es) == Put(FromEntries(front), last.key, last.value);
      hide FromEntries, Put, HasKey, FirstOf, DistinctKeys;
      PlacesSnoc(FromEntries(front), front, last);
    }
  }

  lemma PlacesSnoc(d: seq<Entry>, es: seq<Entry>, e: Entry)
    requires DistinctKeys(d) && forall key :: HasKey(d, key) <==> HasKey(es, key)
    requires forall i, j :: 0 <= i < j < |d| ==> FirstOf(es, d[i].key) < FirstOf(es, d[j].key)
    ensures forall key :: HasKey(Put(d, e.key, e.value), key) <==> HasKey(es + [e], key)
    ensures var r := Put(d, e.key, e.value);
            forall i, j :: 0 <= i < j < |r| ==> FirstOf(es + [e], r[i].key) < FirstOf(es + [e], r[j].key)
  {
    var r := Put(d, e.key, e.value);
    forall key ensures HasKey(r, key) <==> HasKey(es + [e], key) {
      PutKeepsKeys(d, e.key, e.value, key);
      HasKeySnoc(es, e, key);
    }
    forall i | 0 <= i < |d| ensures HasKey(es, d[i].key) {
      assert HasKey(d, d[i].key);
    }
    forall i, j | 0 <= i < j < |r| ensures FirstOf(es + [e], r[i].key) < FirstOf(es + [e], r[j].key) {
      if HasKey(d, e.key) {
        PutInPlace(d, e.key, e.value);
      } else {
        PutAtEnd(d, e.key, e.value);
      }
      FirstOfSnoc(es, e, r[i].key);
      FirstOfSnoc(es, e, r[j].key);
    }
  }

  lemma HasKeySnoc(es: seq<Entry>, e: Entry, key: Text)
    ensures HasKey(es + [e], key) <==> HasKey(es, key) || e.key == key
  {
    var all := es + [e];
    assert all[|es|] == e && forall i :: 0 <= i < |es| ==> all[i] == es[i];
  }

  // ----- The fallback -----

  predicate CleanKeys(d: seq<Entry>) {
    forall e :: e in d ==> NoSplitPair(e.key)
  }

  lemma {:induction false} PutAllEntries(d: seq<Entry>, updates: seq<Entry>)
    requires DistinctKeys(d)
    ensures DistinctKeys(PutAll(d, updates))
    ensures forall e :: e in PutAll(d, updates) ==> e in d || e in updates
    decreases |updates|
  {
    if updates != [] {
      var u := updates[0];
      assert u in updates && u == Entry(u.key, u.value);
      PutEntries(d, u);
      PutKeepsDistinct(d, u.key, u.value);
      hide DistinctKeys, Put;
      PutAllEntries(Put(d, u.key, u.value), updates[1..]);
    }
  }

  lemma {:induction false} PutEntries(d: seq<Entry>, u: Entry)
    ensures forall e :: e in Put(d, u.key, u.value) ==> e in d || e == u
    decreases |d|
  {
    if d != [] && d[0].key != u.key {
      PutEntries(d[1..], u);
    }
  }

  lemma {:induction false} GetOfJoined(d: seq<Entry>, key: Text)
    requires CleanKeys(d)
    ensures Get(JoinedEntries(d), key) == if Get(d, key).Some? then Some(Joined(Get(d, key).value)) else None
    decreases |d|
  {
    hide Joined, NoSplitPair;
    if d != [] {
      assert d[0] in d && JoinPairs(d[0].key) == d[0].key by {
        JoinShrinks(d[0].key);
      }
      assert CleanKeys(d[1..]);
      GetOfJoined(d[1..], key);
      assert JoinedEntries(d)[1..] == JoinedEntries(d[1..]);
    }
  }

  lemma CleanKeysStay(d: seq<Entry>)
    requires CleanKeys(d) && DistinctKeys(d)
    ensures FromEntries(JoinedEntries(d)) == JoinedEntries(d)
  {
    hide Joined, NoSplitPair;
    var joined := JoinedEntries(d);
    forall i | 0 <= i < |d| ensures joined[i].key == d[i].key {
      assert d[i] in d;
      JoinShrinks(d[i].key);
    }
    EntriesKept(joined);
  }

  /** A body that has no span for one of the keys is encoded anew: its text then decodes to a
      mapping in which every updated key has the update's value, every other key what it had, and
      no key is added or lost, all as the encoding gives values back. */
  lemma ReencodingKeepsMeaning(b: JsonBody, updates: seq<Entry>)
    requires Proper(Dict(b.fields)) && ProperUpdates(updates) && !AllLocated(b, updates)
    ensures var r := Replaced(b, updates);
            && r.spans == map[] && Decode(r.text) == Some(Joined(Dict(r.fields)))
            && (forall key :: Get(r.fields, key) == if Get(updates, key).Some? then Get(updates, key) else Get(b.fields, key))
            && (CleanKeys(b.fields) && CleanKeys(updates) ==>
                  && Decode(r.text).Some? && Decode(r.text).value.Dict?
                  && var d := Decode(r.text).value.entries;
                  forall key :: Get(d, key) ==
                                if Get(updates, key).Some? then Some(Joined(Get(updates, key).value))
                                else if Get(b.fields, key).Some? then Some(Joined(Get(b.fields, key).value))
                                else None)
  {
    var fields := PutAll(b.fields, updates);
    PutAllEntries(b.fields, updates);
    assert Proper(Dict(fields));
    FromFieldsDecodes(fields);
    forall key ensures Get(fields, key) == if Get(updates, key).Some? then Get(updates, key) else Get(b.fields, key) {
      GetPutAll(b.fields, updates, key);
    }
    assert Joined(Dict(fields)) == Dict(FromEntries(JoinedEntries(fields)));
    if CleanKeys(b.fields) && CleanKeys(updates) {
      hide Joined, Decode, Encode, Get, NoSplitPair, DistinctKeys, Proper, Put, PutAll, FromEntries;
      assert CleanKeys(fields);
      CleanKeysStay(fields);
      forall key ensures Get(JoinedEntries(fields), key) == if Get(fields, key).Some? then Some(Joined(Get(fields, key).value)) else None {
        GetOfJoined(fields, key);
      }
    }
  }
}
