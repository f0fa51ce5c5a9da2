/** Values replaced in place: what a scan of the edited text finds, and the text the loop builds. */
module JsonEdits {
  import opened JsonBodies
  import opened JsonEncoder
  import opened JsonScanner
  import opened Options

  function Get(d: seq<Entry>, key: Text): Option<Value> {
    if d == [] then None else if d[0].key == key then Some(d[0].value) else Get(d[1..], key)
  }

  /** `{**d, **updates}`. */
  function PutAll(d: seq<Entry>, updates: seq<Entry>): seq<Entry>
    decreases |updates|
  {
    if updates == [] then d else PutAll(Put(d, updates[0].key, updates[0].value), updates[1..])
  }

  predicate ProperUpdates(updates: seq<Entry>) {
    DistinctKeys(updates) && forall u :: u in updates ==> Proper(u.value)
  }

  datatype Edit = Edit(start: nat, end: nat, encoded: Text)

  function Growth(e: Edit): int {
    |e.encoded| - (e.end - e.start)
  }

  function GrowthSum(edits: seq<Edit>): int {
    if edits == [] then 0 else GrowthSum(edits[..|edits| - 1]) + Growth(edits[|edits| - 1])
  }

  /** The edits in the order of the text: one for every occurrence of an updated key. */
  function EditsOf(ms: seq<Member>, updates: seq<Entry>): seq<Edit> {
    if ms == [] then []
    else
      var v := Get(updates, ms[0].key);
      (if v.Some? then [Edit(ms[0].start, ms[0].end, Encode(v.value))] else []) + EditsOf(ms[1..], updates)
  }

  /** The members after the edits, laid out from an offset that has already moved by `d`. A
      replaced value reads back in its joined form. */
  function Moved(ms: seq<Member>, updates: seq<Entry>, d: int): (r: seq<Member>)
    requires Ordered(ms) && (ms != [] ==> ms[0].start + d >= 0)
    ensures |r| == |ms|
    decreases |ms|
  {
    if ms == [] then []
    else
      var m := ms[0];
      var v := Get(updates, m.key);
      var end := m.start + d + if v.Some? then |Encode(v.value)| else m.end - m.start;
      [Member(m.key, if v.Some? then Joined(v.value) else m.value, m.start + d, end)]
      + Moved(ms[1..], updates, end - m.end)
  }

  /** How far the text behind the last member has moved. */
  function MovedBy(ms: seq<Member>, updates: seq<Entry>, d: int): int {
    if ms == [] then d
    else
      var v := Get(updates, ms[0].key);
      MovedBy(ms[1..], updates, d + if v.Some? then |Encode(v.value)| - (ms[0].end - ms[0].start) else 0)
  }

  /** `u` is `t` from `i` on, moved by `d`, with every updated member's value re-encoded. */
  predicate Spliced(t: Text, u: Text, ms: seq<Member>, updates: seq<Entry>, d: int, i: nat)
    decreases |ms|
  {
    if ms == [] then Agree(t, u, d, i, |t|) && |u| == |t| + d
    else
      var m := ms[0];
      var v := Get(updates, m.key);
      && i <= m.start <= m.end
      && Agree(t, u, d, i, m.start)
      && if v.Some? then
           && At(u, m.start + d, Encode(v.value))
           && Spliced(t, u, ms[1..], updates, m.start + d + |Encode(v.value)| - m.end, m.end)
         else
           && Agree(t, u, d, m.start, m.end)
           && Spliced(t, u, ms[1..], updates, d, m.end)
  }

  lemma SplicedLater(t: Text, u: Text, ms: seq<Member>, updates: seq<Entry>, d: int, i: nat, k: nat)
    requires Spliced(t, u, ms, updates, d, i) && i <= k <= |t|
    requires ms != [] ==> k <= ms[0].start
    ensures Spliced(t, u, ms, updates, d, k)
  {
  }

  /** The text just after a spliced value has the character that was there before. */
  lemma SplicedNext(t: Text, u: Text, ms: seq<Member>, updates: seq<Entry>, d: int, i: nat, n: nat)
    requires Spliced(t, u, ms, updates, d, i)
    requires i <= n < |t| && (ms != [] ==> n < ms[0].start)
    ensures Agree(t, u, d, i, n + 1)
  {
  }

  lemma ProperGet(updates: seq<Entry>, key: Text)
    requires (forall u :: u in updates ==> Proper(u.value)) && Get(updates, key).Some?
    ensures Proper(Get(updates, key).value)
  {
  }

  /** Reading one spliced member: the key is untouched, the value is the old one or the new. */
  lemma MemberSpliced(t: Text, u: Text, m: Member, updates: seq<Entry>, d: int, i: nat, e: nat)
    requires i <= |t| && ScanMember(t, i) == Done(m, m.end)
    requires Agree(t, u, d, i, m.start) && (forall x :: x in updates ==> Proper(x.value))
    requires Delimited(u, e)
    requires var v := Get(updates, m.key);
             if v.Some? then e == m.start + d + |Encode(v.value)| && At(u, m.start + d, Encode(v.value))
             else e == m.end + d && Agree(t, u, d, m.start, m.end)
    ensures var v := Get(updates, m.key);
            && m.start + d >= 0
            && ScanMember(u, i + d) == Done(Member(m.key, if v.Some? then Joined(v.value) else m.value, m.start + d, e), e)
  {
    hide ScanValue, ScanString, Encode, Proper, Delimited, SkipWs, Joined;
    MemberHeadLocal(t, u, d, i);
    var v := Get(updates, m.key);
    var c := SkipWs(t, ScanString(t, i + 1).end);
    if v.Some? {
      ProperGet(updates, m.key);
      EncodeStarts(v.value);
      AtChars(u, m.start + d, Encode(v.value));
      assert u[m.start + d] == Encode(v.value)[0];
      WsUpTo(t, u, d, c + 1, m.start);
      ValueReads(v.value, u, m.start + d);
    } else {
      assert Agree(t, u, d, c + 1, m.end);
      WsLocal(t, u, d, c + 1, m.start);
      ValueLocal(t, u, d, m.start);
    }
  }

  lemma {:induction false} WsUpTo(t: Text, u: Text, d: int, i: nat, k: nat)
    requires i <= k <= |t| && SkipWs(t, i) == k
    requires Agree(t, u, d, i, k) && k + d < |u| && !IsWs(u[k + d])
    ensures SkipWs(u, i + d) == k + d
    decreases k - i
  {
    if i < k {
      assert t[i] == u[i + d];
      WsUpTo(t, u, d, i + 1, k);
    }
  }

  lemma {:induction false} WsToEnd(t: Text, u: Text, d: int, i: nat)
    requires i <= |t| && SkipWs(t, i) == |t|
    requires Agree(t, u, d, i, |t|) && |u| == |t| + d
    ensures SkipWs(u, i + d) == |u|
    decreases |t| - i
  {
    if i < |t| {
      assert t[i] == u[i + d];
      WsToEnd(t, u, d, i + 1);
    }
  }

  /** What a successful member scan found at its first turn. */
  lemma MembersHead(t: Text, i: nat) returns (m: Member, n: nat, tail: seq<Member>)
    requires i <= |t| && ScanMembers(t, i).Done?
    ensures ScanMembers(t, i).value == [m] + tail && ScanMember(t, i) == Done(m, m.end)
    ensures i < m.start < m.end <= n < |t| && n == SkipWs(t, m.end)
    ensures t[n] in {COMMA, RBRACE}
    ensures t[n] == COMMA ==>
              && ScanMembers(t, SkipWs(t, n + 1)) == Done(tail, ScanMembers(t, i).end)
              && tail != [] && SkipWs(t, n + 1) < tail[0].start
    ensures t[n] == RBRACE ==> tail == [] && ScanMembers(t, i).end == n + 1
  {
    hide ScanMember, ScanValue, SkipWs;
    m := ScanMember(t, i).value;
    n := SkipWs(t, m.end);
    tail := [];
    if t[n] == COMMA {
      MembersOrdered(t, SkipWs(t, n + 1));
      tail := ScanMembers(t, SkipWs(t, n + 1)).value;
    }
  }

  /** What a splice says of its first member. */
  lemma SplicedHead(t: Text, u: Text, m: Member, tail: seq<Member>, updates: seq<Entry>, d: int, i: nat)
    returns (e: int)
    requires Spliced(t, u, [m] + tail, updates, d, i) && m.end <= |t|
    ensures var v := Get(updates, m.key);
            && e == m.start + d + (if v.Some? then |Encode(v.value)| else m.end - m.start)
            && i <= m.start <= m.end && m.start + d >= 0 && e >= 0
            && Agree(t, u, d, i, m.start)
            && Spliced(t, u, tail, updates, e - m.end, m.end)
            && if v.Some? then At(u, m.start + d, Encode(v.value)) else Agree(t, u, d, m.start, m.end)
  {
    assert ([m] + tail)[1..] == tail;
    var v := Get(updates, m.key);
    e := m.start + d + if v.Some? then |Encode(v.value)| else m.end - m.start;
  }

  /** The member scan over a spliced text finds the same keys, with the edits' values at the
      moved offsets. */
  lemma {:induction false} SplicedReads(t: Text, u: Text, d: int, i: nat, updates: seq<Entry>)
    requires i <= |t| && ScanMembers(t, i).Done?
    requires forall x :: x in updates ==> Proper(x.value)
    requires Spliced(t, u, ScanMembers(t, i).value, updates, d, i)
    ensures var ms := ScanMembers(t, i).value;
            && Ordered(ms) && ms[0].start + d >= 0
            && ScanMembers(t, i).end + MovedBy(ms, updates, d) >= 0
            && ScanMembers(u, i + d) == Done(Moved(ms, updates, d), ScanMembers(t, i).end + MovedBy(ms, updates, d))
            && Agree(t, u, MovedBy(ms, updates, d), ScanMembers(t, i).end, |t|)
            && |u| == |t| + MovedBy(ms, updates, d)
    decreases |t| - i
  {
    hide ScanMembers, ScanMember, ScanValue, SkipWs, Encode, Proper, Delimited, Spliced, Moved, MovedBy, Ordered, Agree, At, Get;
    MembersOrdered(t, i);
    var m, n, tail := MembersHead(t, i);
    var e := SplicedHead(t, u, m, tail, updates, d, i);
    var next := e - m.end;
    MovedCons(m, tail, updates, d);
    var head := Member(m.key, if Get(updates, m.key).Some? then Joined(Get(updates, m.key).value) else m.value, m.start + d, e);
    SeparatorSpliced(t, u, tail, updates, next, m.end, n);
    StopsHere(u, e, n + next);
    MemberSpliced(t, u, m, updates, d, i, e);
    if t[n] == COMMA {
      var k := SkipWs(t, n + 1);
      SplicedReads(t, u, next, k, updates);
      MembersComma(u, i + d, head, n + next);
    } else {
      LastSpliced(t, u, updates, next, m.end, n);
      MovedLast(updates, next);
      MembersBrace(u, i + d, head, n + next);
      assert [head] + [] == [head];
    }
  }

  lemma MembersComma(u: Text, i: nat, m: Member, n: nat)
    requires i <= |u| && ScanMember(u, i) == Done(m, m.end) && SkipWs(u, m.end) == n < |u| && u[n] == COMMA
    ensures ScanMembers(u, i) == Prefixed([m], ScanMembers(u, SkipWs(u, n + 1)))
  {
    hide ScanMember, SkipWs, ScanValue;
  }

  lemma MembersBrace(u: Text, i: nat, m: Member, n: nat)
    requires i <= |u| && ScanMember(u, i) == Done(m, m.end) && SkipWs(u, m.end) == n < |u| && u[n] == RBRACE
    ensures ScanMembers(u, i) == Done([m], n + 1)
  {
    hide ScanMember, SkipWs, ScanValue;
  }

  /** The separator behind a member, and the gap up to the next key, read alike in both texts. */
  lemma SeparatorSpliced(t: Text, u: Text, tail: seq<Member>, updates: seq<Entry>, d: int, i: nat, n: nat)
    requires Spliced(t, u, tail, updates, d, i) && i <= n < |t| && SkipWs(t, i) == n
    requires t[n] in {COMMA, RBRACE}
    requires t[n] == COMMA ==> SkipWs(t, n + 1) < |t| && tail != [] && SkipWs(t, n + 1) < tail[0].start
    requires t[n] == RBRACE ==> tail == []
    ensures 0 <= i + d && i + d <= |u| && SkipWs(u, i + d) == n + d < |u| && u[n + d] == t[n]
    ensures t[n] == COMMA ==>
              && SkipWs(u, n + 1 + d) == SkipWs(t, n + 1) + d
              && Spliced(t, u, tail, updates, d, SkipWs(t, n + 1))
  {
    hide SkipWs, Spliced, Agree;
    if t[n] == COMMA {
      var k := SkipWs(t, n + 1);
      SplicedNext(t, u, tail, updates, d, i, k);
      AgreePart(t, u, d, i, k + 1, n + 1, k + 1);
      AgreePart(t, u, d, i, k + 1, i, n + 1);
      WsLocal(t, u, d, n + 1, k);
      SplicedLater(t, u, tail, updates, d, i, k);
    } else {
      SplicedNext(t, u, tail, updates, d, i, n);
    }
    AgreeLast(t, u, d, i, n);
    WsLocal(t, u, d, i, n);
  }

  lemma MovedCons(m: Member, tail: seq<Member>, updates: seq<Entry>, d: int)
    requires Ordered([m] + tail) && m.start + d >= 0
    ensures var v := Get(updates, m.key);
            var e := m.start + d + if v.Some? then |Encode(v.value)| else m.end - m.start;
            && e >= 0 && Ordered(tail) && (tail != [] ==> tail[0].start + (e - m.end) >= 0)
            && Moved([m] + tail, updates, d) ==
               [Member(m.key, if v.Some? then Joined(v.value) else m.value, m.start + d, e)]
               + Moved(tail, updates, e - m.end)
            && MovedBy([m] + tail, updates, d) == MovedBy(tail, updates, e - m.end)
  {
    assert ([m] + tail)[1..] == tail;
  }

  lemma MovedLast(updates: seq<Entry>, d: int)
    ensures Moved([], updates, d) == [] && MovedBy([], updates, d) == d
  {
  }

  lemma LastSpliced(t: Text, u: Text, updates: seq<Entry>, d: int, i: nat, n: nat)
    requires Spliced(t, u, [], updates, d, i) && i <= n < |t|
    ensures Agree(t, u, d, n + 1, |t|) && |u| == |t| + d
  {
  }

  lemma AgreePart(t: Text, u: Text, d: int, i: nat, e: nat, j: nat, k: nat)
    requires Agree(t, u, d, i, e) && i <= j && k <= e
    ensures Agree(t, u, d, j, k)
  {
  }

  lemma AgreeLast(t: Text, u: Text, d: int, i: nat, n: nat)
    requires Agree(t, u, d, i, n + 1) && i <= n
    ensures n + d < |u| && u[n + d] == t[n]
  {
    assert t[n] == u[n + d];
  }

  /** The whole document: a spliced object is an object, with the members the splice says. */
  lemma SplicedTopLevel(t: Text, u: Text, updates: seq<Entry>)
    requires TopLevel(t).Some? && (forall x :: x in updates ==> Proper(x.value))
    requires Spliced(t, u, TopLevel(t).value, updates, 0, 0)
    ensures Ordered(TopLevel(t).value)
    ensures TopLevel(u) == Some(Moved(TopLevel(t).value, updates, 0))
  {
    hide ScanMembers, SkipWs, Encode, Proper, MovedBy, Moved, Spliced, Ordered, Get;
    SpansAreExact(t);
    var ms := TopLevel(t).value;
    var i := SkipWs(t, 0);
    var j := SkipWs(t, i + 1);
    if ms == [] {
      SplicedNothing(t, u, updates);
      MovedLast(updates, 0);
    } else {
      MembersOrdered(t, j);
      SplicedNext(t, u, ms, updates, 0, 0, j);
      AgreePart(t, u, 0, 0, j + 1, 0, i + 1);
      WsLocal(t, u, 0, 0, i);
      WsLocal(t, u, 0, i + 1, j);
      AgreeLast(t, u, 0, 0, i);
      AgreeLast(t, u, 0, 0, j);
      SplicedLater(t, u, ms, updates, 0, 0, j);
      SplicedReads(t, u, 0, j, updates);
      WsToEnd(t, u, MovedBy(ms, updates, 0), ScanMembers(t, j).end);
    }
  }

  lemma SplicedNothing(t: Text, u: Text, updates: seq<Entry>)
    requires Spliced(t, u, [], updates, 0, 0)
    ensures t == u
  {
    forall j | 0 <= j < |t| ensures t[j] == u[j] {
      assert t[j] == u[j + 0];
    }
  }

  // ----- The text the loop builds -----

  function Build(t: Text, pos: nat, edits: seq<Edit>): Text
    decreases |edits|
  {
    if edits == [] then if pos <= |t| then t[pos..] else []
    else
      var e := edits[0];
      (if pos <= e.start <= |t| then t[pos..e.start] else []) + e.encoded + Build(t, e.end, edits[1..])
  }

  /** Characters of `x` standing in `u` from `i` to its end. */
  predicate Ends(u: Text, i: nat, x: Text) {
    i <= |u| && u[i..] == x
  }

  lemma EndsSplit(u: Text, i: nat, a: Text, b: Text)
    requires Ends(u, i, a + b)
    ensures At(u, i, a) && Ends(u, i + |a|, b)
  {
    assert u[i..][..|a|] == a;
    assert u[i..][|a|..] == b;
    assert u[i..i + |a|] == u[i..][..|a|];
    assert u[i + |a|..] == u[i..][|a|..];
  }

  lemma AtAgrees(t: Text, u: Text, i: nat, e: nat, d: int)
    requires i <= e <= |t| && i + d >= 0 && At(u, i + d, t[i..e])
    ensures Agree(t, u, d, i, e)
  {
    AtChars(u, i + d, t[i..e]);
    forall j | i <= j < e ensures t[j] == u[j + d] {
      assert u[j + d] == t[i..e][j - i];
    }
  }

  lemma BuildSplit(t: Text, i: nat, k: nat, edits: seq<Edit>)
    requires i <= k <= |t| && (edits != [] ==> k <= edits[0].start <= |t|)
    ensures Build(t, i, edits) == t[i..k] + Build(t, k, edits)
  {
    if edits == [] {
      assert t[i..] == t[i..k] + t[k..];
    } else {
      var e := edits[0];
      var rest := e.encoded + Build(t, e.end, edits[1..]);
      assert Build(t, i, edits) == t[i..e.start] + rest;
      assert Build(t, k, edits) == t[k..e.start] + rest;
      SliceSplit(t, i, k, e.start, rest);
    }
  }

  lemma SliceSplit(t: Text, i: nat, k: nat, e: nat, rest: Text)
    requires i <= k <= e <= |t|
    ensures t[i..e] + rest == t[i..k] + (t[k..e] + rest)
  {
    assert t[i..e] == t[i..k] + t[k..e];
  }

  lemma EditsAfter(ms: seq<Member>, updates: seq<Entry>, limit: nat)
    requires Ordered(ms) && forall m :: m in ms ==> m.end <= limit
    ensures forall e :: e in EditsOf(ms, updates) ==> e.start < e.end <= limit && ms[0].start <= e.start
  {
  }

  lemma BuildEdit(t: Text, u: Text, m: Member, enc: Text, rest: seq<Edit>, d: int, i: nat)
    requires i <= m.start <= m.end <= |t| && i + d >= 0
    requires Ends(u, i + d, Build(t, i, [Edit(m.start, m.end, enc)] + rest))
    ensures Agree(t, u, d, i, m.start) && At(u, m.start + d, enc)
    ensures Ends(u, m.start + d + |enc|, Build(t, m.end, rest))
  {
    hide At, Ends, Agree;
    var e := Edit(m.start, m.end, enc);
    assert ([e] + rest)[1..] == rest;
    assert Build(t, i, [e] + rest) == t[i..m.start] + (enc + Build(t, m.end, rest));
    EndsSplit(u, i + d, t[i..m.start], enc + Build(t, m.end, rest));
    EndsSplit(u, m.start + d, enc, Build(t, m.end, rest));
    AtAgrees(t, u, i, m.start, d);
  }

  lemma BuildKeep(t: Text, u: Text, m: Member, rest: seq<Edit>, d: int, i: nat)
    requires i <= m.start <= m.end <= |t| && i + d >= 0
    requires rest != [] ==> m.end <= rest[0].start <= |t|
    requires Ends(u, i + d, Build(t, i, rest))
    ensures Agree(t, u, d, i, m.start) && Agree(t, u, d, m.start, m.end)
    ensures Ends(u, m.end + d, Build(t, m.end, rest))
  {
    hide At, Ends, Build, Agree;
    BuildSplit(t, i, m.start, rest);
    EndsSplit(u, i + d, t[i..m.start], Build(t, m.start, rest));
    BuildSplit(t, m.start, m.end, rest);
    EndsSplit(u, m.start + d, t[m.start..m.end], Build(t, m.end, rest));
    AtAgrees(t, u, i, m.start, d);
    AtAgrees(t, u, m.start, m.end, d);
  }

  /** What the edit loop builds is a splice. */
  lemma {:induction false} BuildSplices(t: Text, u: Text, ms: seq<Member>, updates: seq<Entry>, d: int, i: nat)
    requires Ordered(ms) && (ms != [] ==> i <= ms[0].start) && i <= |t|
    requires forall m :: m in ms ==> m.end <= |t|
    requires i + d >= 0 && Ends(u, i + d, Build(t, i, EditsOf(ms, updates)))
    ensures Spliced(t, u, ms, updates, d, i)
    decreases |ms|
  {
    hide Encode, At, Ends, Build, Agree;
    if ms == [] {
      BuildNothing(t, u, i, d);
    } else {
      var m := ms[0];
      var rest := EditsOf(ms[1..], updates);
      EditsAfter(ms[1..], updates, |t|);
      var v := Get(updates, m.key);
      if v.Some? {
        BuildEdit(t, u, m, Encode(v.value), rest, d, i);
        BuildSplices(t, u, ms[1..], updates, m.start + d + |Encode(v.value)| - m.end, m.end);
      } else {
        assert EditsOf(ms, updates) == rest;
        BuildKeep(t, u, m, rest, d, i);
        BuildSplices(t, u, ms[1..], updates, d, m.end);
      }
    }
  }

  lemma BuildNothing(t: Text, u: Text, i: nat, d: int)
    requires i <= |t| && i + d >= 0 && Ends(u, i + d, Build(t, i, []))
    ensures Agree(t, u, d, i, |t|) && |u| == |t| + d
  {
    assert Build(t, i, []) == t[i..] + [];
    EndsSplit(u, i + d, t[i..], []);
    assert t[i..|t|] == t[i..];
    AtAgrees(t, u, i, |t|, d);
  }
}
