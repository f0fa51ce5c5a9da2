/** `json.dumps` with its default settings, and what decoding its output gives back.

    Everything outside printable ASCII is escaped, so a string that holds a high surrogate
    directly before a low one is written as the escapes of a pair, which decode to one code
    point. `Joined` is the value that comes back; it is the value that went in exactly when
    the value is `Clean`. */
module JsonEncoder {
  import opened JsonScanner
  import opened Options

  // ----- Encoding -----

  function HexChar(n: nat): CodePoint
    requires n < 16
  {
    if n < 10 then 0x30 + n else 0x61 + (n - 10)
  }

  function EscapeUnit(n: nat): (r: Text)
    requires n < 0x1_0000
    ensures |r| == 6
  {
    [BACKSLASH, LOWER_U, HexChar(n / 0x1000), HexChar(n / 0x100 % 16), HexChar(n / 0x10 % 16), HexChar(n % 16)]
  }

  function HighOf(c: CodePoint): (r: nat)
    requires c >= 0x1_0000
    ensures IsHigh(r)
  {
    0xd800 + (c - 0x1_0000) / 0x400
  }

  function LowOf(c: CodePoint): (r: nat)
    requires c >= 0x1_0000
    ensures IsLow(r)
  {
    0xdc00 + (c - 0x1_0000) % 0x400
  }

  function EncodeChar(c: CodePoint): (r: Text)
    ensures |r| > 0
  {
    if c == QUOTE then [BACKSLASH, QUOTE]
    else if c == BACKSLASH then [BACKSLASH, BACKSLASH]
    else if c == 0x0a then [BACKSLASH, 0x6e]
    else if c == 0x0d then [BACKSLASH, 0x72]
    else if c == 0x09 then [BACKSLASH, 0x74]
    else if c == 0x0c then [BACKSLASH, 0x66]
    else if c == 0x08 then [BACKSLASH, 0x62]
    else if 0x20 <= c <= 0x7e then [c]
    else if c < 0x1_0000 then EscapeUnit(c)
    else EscapeUnit(HighOf(c)) + EscapeUnit(LowOf(c))
  }

  function EncodeChars(s: Text): Text {
    if s == [] then [] else EncodeChar(s[0]) + EncodeChars(s[1..])
  }

  function EncodeString(s: Text): Text {
    [QUOTE] + EncodeChars(s) + [QUOTE]
  }

  function Encode(v: Value): Text
    decreases v
  {
    match v
    case Null => NULL_WORD
    case Bool(b) => if b then TRUE_WORD else FALSE_WORD
    case NotANumber => NAN_WORD
    case Infinite(negative) => if negative then MINUS_INFINITY_WORD else INFINITY_WORD
    case Number(lexeme) => lexeme
    case Str(s) => EncodeString(s)
    case List(items) => [LBRACKET] + EncodeItems(items) + [RBRACKET]
    case Dict(entries) => [LBRACE] + EncodeEntries(entries) + [RBRACE]
  }

  function EncodeItems(items: seq<Value>): Text
    decreases items
  {
    if items == [] then []
    else if |items| == 1 then Encode(items[0])
    else Encode(items[0]) + [COMMA, SPACE] + EncodeItems(items[1..])
  }

  function EncodeEntry(e: Entry): Text
    decreases e
  {
    EncodeString(e.key) + [COLON, SPACE] + Encode(e.value)
  }

  function EncodeEntries(entries: seq<Entry>): Text
    decreases entries
  {
    if entries == [] then []
    else if |entries| == 1 then EncodeEntry(entries[0])
    else EncodeEntry(entries[0]) + [COMMA, SPACE] + EncodeEntries(entries[1..])
  }

  // ----- What comes back -----

  /** Adjacent surrogates paired up from the left, as the decoder pairs their escapes. */
  function JoinPairs(s: Text): Text {
    if s == [] then []
    else if |s| >= 2 && IsHigh(s[0]) && IsLow(s[1]) then [JoinPair(s[0], s[1])] + JoinPairs(s[2..])
    else [s[0]] + JoinPairs(s[1..])
  }

  function Joined(v: Value): Value
    decreases v
  {
    match v
    case Str(s) => Str(JoinPairs(s))
    case List(items) => List(JoinedItems(items))
    case Dict(entries) => Dict(FromEntries(JoinedEntries(entries)))
    case _ => v
  }

  function JoinedItems(items: seq<Value>): (r: seq<Value>)
    ensures |r| == |items|
    ensures forall k :: 0 <= k < |items| ==> r[k] == Joined(items[k])
    decreases items
  {
    if items == [] then [] else [Joined(items[0])] + JoinedItems(items[1..])
  }

  function JoinedEntries(entries: seq<Entry>): (r: seq<Entry>)
    ensures |r| == |entries|
    ensures forall k :: 0 <= k < |entries| ==> r[k] == Entry(JoinPairs(entries[k].key), Joined(entries[k].value))
    decreases entries
  {
    if entries == [] then []
    else [Entry(JoinPairs(entries[0].key), Joined(entries[0].value))] + JoinedEntries(entries[1..])
  }

  predicate IsLexeme(s: Text) {
    |s| > 0 && NumberEnd(s, 0) == |s|
  }

  predicate DistinctKeys(entries: seq<Entry>) {
    forall i, j :: 0 <= i < j < |entries| ==> entries[i].key != entries[j].key
  }

  /** A value a Python program can hold: numbers are numbers and dictionary keys differ. */
  predicate Proper(v: Value)
    decreases v
  {
    match v
    case Number(lexeme) => IsLexeme(lexeme)
    case List(items) => forall x :: x in items ==> Proper(x)
    case Dict(entries) => DistinctKeys(entries) && forall e :: e in entries ==> Proper(e.value)
    case _ => true
  }

  /** No high surrogate stands directly before a low one. */
  predicate NoSplitPair(s: Text) {
    forall i :: 0 <= i < |s| - 1 ==> !(IsHigh(s[i]) && IsLow(s[i + 1]))
  }

  predicate Clean(v: Value)
    decreases v
  {
    match v
    case Str(s) => NoSplitPair(s)
    case List(items) => forall x :: x in items ==> Clean(x)
    case Dict(entries) => forall e :: e in entries ==> NoSplitPair(e.key) && Clean(e.value)
    case _ => true
  }

  // ----- Strings come back joined -----

  lemma AtSplit(t: Text, i: nat, a: Text, b: Text)
    requires At(t, i, a + b)
    ensures At(t, i, a) && At(t, i + |a|, b)
  {
    assert t[i..i + |a|] == (a + b)[..|a|] by {
      assert t[i..i + |a|] == t[i..i + |a + b|][..|a|];
    }
    assert t[i + |a|..i + |a| + |b|] == (a + b)[|a|..] by {
      assert t[i + |a|..i + |a| + |b|] == t[i..i + |a + b|][|a|..];
    }
  }

  lemma AtChars(t: Text, i: nat, w: Text)
    requires At(t, i, w)
    ensures forall k :: i <= k < i + |w| ==> t[k] == w[k - i]
  {
    forall k | i <= k < i + |w| ensures t[k] == w[k - i] {
      assert t[i..i + |w|][k - i] == t[k];
    }
  }

  lemma HexCharReads(n: nat)
    requires n < 16
    ensures HexDigit(HexChar(n)) == Some(n)
  {
  }

  lemma HexSum(n: nat)
    requires n < 0x1_0000
    ensures n / 0x1000 * 0x1000 + n / 0x100 % 16 * 0x100 + n / 0x10 % 16 * 0x10 + n % 16 == n
  {
    assert n / 0x100 == n / 0x1000 * 16 + n / 0x100 % 16;
    assert n / 0x10 == n / 0x100 * 16 + n / 0x10 % 16;
  }

  lemma HexReads(t: Text, i: nat, a: nat, b: nat, c: nat, d: nat)
    requires a < 16 && b < 16 && c < 16 && d < 16
    requires At(t, i, [HexChar(a), HexChar(b), HexChar(c), HexChar(d)])
    ensures Hex4(t, i) == Some(a * 0x1000 + b * 0x100 + c * 0x10 + d)
  {
    hide HexChar, HexDigit;
    var w := [HexChar(a), HexChar(b), HexChar(c), HexChar(d)];
    AtChars(t, i, w);
    assert t[i] == w[0] && t[i + 1] == w[1] && t[i + 2] == w[2] && t[i + 3] == w[3];
    HexCharReads(a);
    HexCharReads(b);
    HexCharReads(c);
    HexCharReads(d);
  }

  lemma UnitReads(t: Text, i: nat, n: nat)
    requires n < 0x1_0000 && At(t, i, EscapeUnit(n))
    ensures i + 6 <= |t| && t[i] == BACKSLASH && t[i + 1] == LOWER_U && Hex4(t, i + 2) == Some(n)
  {
    hide HexChar, HexDigit, Hex4;
    var a, b, c, d := n / 0x1000, n / 0x100 % 16, n / 0x10 % 16, n % 16;
    var head, digits: Text := [BACKSLASH, LOWER_U], [HexChar(a), HexChar(b), HexChar(c), HexChar(d)];
    assert EscapeUnit(n) == head + digits;
    AtSplit(t, i, head, digits);
    AtChars(t, i, head);
    assert t[i] == head[0] && t[i + 1] == head[1];
    HexReads(t, i + 2, a, b, c, d);
    HexSum(n);
  }

  lemma PairReads(c: CodePoint)
    requires c >= 0x1_0000
    ensures JoinPair(HighOf(c), LowOf(c)) == c
  {
  }

  /** One encoded character reads back as itself, unless its escape and the next one's pair up. */
  lemma CharReads(t: Text, i: nat, c: CodePoint)
    requires At(t, i, EncodeChar(c))
    requires IsHigh(c) && UnicodeEscapeAt(t, i + 6) ==> Hex4(t, i + 8).Some? && !IsLow(Hex4(t, i + 8).value)
    ensures i < |t| && t[i] != QUOTE && ScanChar(t, i) == Done(c, i + |EncodeChar(c)|)
  {
    hide Hex4, EscapeUnit;
    AtChars(t, i, EncodeChar(c));
    if c >= 0x1_0000 {
      AtSplit(t, i, EscapeUnit(HighOf(c)), EscapeUnit(LowOf(c)));
      UnitReads(t, i, HighOf(c));
      UnitReads(t, i + 6, LowOf(c));
      PairReads(c);
    } else if EncodeChar(c) == EscapeUnit(c) {
      UnitReads(t, i, c);
    } else {
      assert t[i] == EncodeChar(c)[0];
      if |EncodeChar(c)| > 1 {
        assert t[i + 1] == EncodeChar(c)[1];
      }
    }
  }

  lemma SplitPairReads(t: Text, i: nat, a: CodePoint, b: CodePoint)
    requires IsHigh(a) && IsLow(b) && At(t, i, EncodeChar(a) + EncodeChar(b))
    ensures i < |t| && t[i] != QUOTE && ScanChar(t, i) == Done(JoinPair(a, b), i + 12)
  {
    hide Hex4, EscapeUnit;
    AtSplit(t, i, EscapeUnit(a), EscapeUnit(b));
    UnitReads(t, i, a);
    UnitReads(t, i + 6, b);
  }

  /** What stands at the start of an encoded character: `\u` only for an escaped unit. */
  lemma EscapeStarts(t: Text, i: nat, c: CodePoint)
    requires At(t, i, EncodeChar(c))
    ensures i < |t|
    ensures UnicodeEscapeAt(t, i) ==>
              Hex4(t, i + 2) == Some(if c < 0x1_0000 then c else HighOf(c))
  {
    hide Hex4, EscapeUnit;
    AtChars(t, i, EncodeChar(c));
    if c >= 0x1_0000 {
      AtSplit(t, i, EscapeUnit(HighOf(c)), EscapeUnit(LowOf(c)));
      UnitReads(t, i, HighOf(c));
    } else if EncodeChar(c) == EscapeUnit(c) {
      UnitReads(t, i, c);
    } else {
      assert t[i] == EncodeChar(c)[0];
      if |EncodeChar(c)| > 1 {
        assert t[i + 1] == EncodeChar(c)[1];
      }
    }
  }

  lemma {:induction false} StringReads(t: Text, i: nat, s: Text)
    requires At(t, i, EncodeChars(s) + [QUOTE])
    ensures ScanString(t, i) == Done(JoinPairs(s), i + |EncodeChars(s)| + 1)
    decreases |s|
  {
    hide ScanChar, EncodeChar, JoinPair;
    if s == [] {
      AtChars(t, i, [QUOTE]);
      assert EncodeChars(s) + [QUOTE] == [QUOTE];
    } else if |s| >= 2 && IsHigh(s[0]) && IsLow(s[1]) {
      var pair, rest := EncodeChar(s[0]) + EncodeChar(s[1]), EncodeChars(s[2..]) + [QUOTE];
      assert s[1..][1..] == s[2..];
      assert EncodeChars(s) + [QUOTE] == pair + rest;
      AtSplit(t, i, pair, rest);
      SplitPairReads(t, i, s[0], s[1]);
      PairLength(s[0], s[1]);
      StringReads(t, i + 12, s[2..]);
    } else {
      var rest := EncodeChars(s[1..]) + [QUOTE];
      assert EncodeChars(s) + [QUOTE] == EncodeChar(s[0]) + rest;
      AtSplit(t, i, EncodeChar(s[0]), rest);
      NextIsNotLow(t, i, s);
      CharReads(t, i, s[0]);
      StringReads(t, i + |EncodeChar(s[0])|, s[1..]);
    }
  }

  lemma PairLength(a: CodePoint, b: CodePoint)
    requires IsHigh(a) && IsLow(b)
    ensures |EncodeChar(a) + EncodeChar(b)| == 12
  {
  }

  lemma NextIsNotLow(t: Text, i: nat, s: Text)
    requires s != [] && !(|s| >= 2 && IsHigh(s[0]) && IsLow(s[1]))
    requires At(t, i + |EncodeChar(s[0])|, EncodeChars(s[1..]) + [QUOTE])
    ensures IsHigh(s[0]) && UnicodeEscapeAt(t, i + 6) ==> Hex4(t, i + 8).Some? && !IsLow(Hex4(t, i + 8).value)
  {
    hide Hex4;
    var n := i + |EncodeChar(s[0])|;
    if IsHigh(s[0]) {
      assert n == i + 6;
      if |s| == 1 {
        assert EncodeChars(s[1..]) + [QUOTE] == [QUOTE];
        AtChars(t, n, [QUOTE]);
        assert t[n] == QUOTE;
      } else {
        var rest := EncodeChars(s[1..][1..]) + [QUOTE];
        assert EncodeChars(s[1..]) + [QUOTE] == EncodeChar(s[1]) + rest;
        AtSplit(t, n, EncodeChar(s[1]), rest);
        EscapeStarts(t, n, s[1]);
      }
    }
  }

  lemma {:induction false} JoinShrinks(s: Text)
    ensures |JoinPairs(s)| <= |s|
    ensures |JoinPairs(s)| == |s| ==> JoinPairs(s) == s
    ensures |JoinPairs(s)| == |s| <==> NoSplitPair(s)
    decreases |s|
  {
    if s == [] {
    } else if |s| >= 2 && IsHigh(s[0]) && IsLow(s[1]) {
      JoinShrinks(s[2..]);
    } else {
      JoinShrinks(s[1..]);
      assert s == [s[0]] + s[1..];
      if NoSplitPair(s) {
        forall i | 0 <= i < |s[1..]| - 1 ensures !(IsHigh(s[1..][i]) && IsLow(s[1..][i + 1])) {
          assert s[1..][i] == s[i + 1] && s[1..][i + 1] == s[i + 1 + 1];
        }
      } else {
        var i :| 0 <= i < |s| - 1 && IsHigh(s[i]) && IsLow(s[i + 1]);
        assert i > 0 && s[1..][i - 1] == s[i] && s[1..][i - 1 + 1] == s[i + 1];
      }
    }
  }

  // ----- Values come back joined -----

  lemma LexemeReads(s: Text, t: Text, i: nat)
    requires IsLexeme(s) && At(t, i, s) && Delimited(t, i + |s|)
    ensures i < |t| && t[i] !in {QUOTE, LBRACE, LBRACKET}
    ensures ScanAtom(t, i) == Done(Number(s), i + |s|)
  {
    hide NumberEnd;
    AtChars(t, i, s);
    NumberLocal(s, t, i, 0);
    NumberStarts(s, 0);
    if t[i] == MINUS {
      NoInfinity(t, i);
    }
  }

  lemma WordReads(t: Text, i: nat, w: Text)
    requires |w| > 0 && WordFor(w[0]).Some? && WordFor(w[0]).value.spelling == w && At(t, i, w)
    ensures i < |t| && t[i] !in {QUOTE, LBRACE, LBRACKET}
    ensures ScanAtom(t, i) == Done(WordFor(w[0]).value.value, i + |w|)
  {
    AtChars(t, i, w);
  }

  lemma EncodeStarts(v: Value)
    requires Proper(v)
    ensures |Encode(v)| > 0 && !IsWs(Encode(v)[0]) && Encode(v)[0] !in {RBRACKET, RBRACE}
  {
  }

  /** Where an encoded value stands, with nothing behind it that could extend a number, the
      scanner reads its joined form and stops at its end. */
  lemma {:induction false} ValueReads(v: Value, t: Text, i: nat)
    requires Proper(v) && At(t, i, Encode(v)) && Delimited(t, i + |Encode(v)|)
    ensures ScanValue(t, i) == Done(Joined(v), i + |Encode(v)|)
    decreases v
  {
    hide ScanAtom, ScanString, ScanMembers, ScanItems;
    EncodeStarts(v);
    AtChars(t, i, Encode(v));
    match v
    case Null => WordReads(t, i, NULL_WORD);
    case Bool(b) => WordReads(t, i, if b then TRUE_WORD else FALSE_WORD);
    case NotANumber => WordReads(t, i, NAN_WORD);
    case Infinite(negative) => WordReads(t, i, if negative then MINUS_INFINITY_WORD else INFINITY_WORD);
    case Number(lexeme) => LexemeReads(lexeme, t, i);
    case Str(s) =>
      assert Encode(v) == [QUOTE] + (EncodeChars(s) + [QUOTE]);
      AtSplit(t, i, [QUOTE], EncodeChars(s) + [QUOTE]);
      StringReads(t, i + 1, s);
    case List(items) => ListReads(items, t, i);
    case Dict(entries) => DictReads(entries, t, i);
  }

  lemma {:induction false} ListReads(items: seq<Value>, t: Text, i: nat)
    requires (forall x :: x in items ==> Proper(x))
    requires At(t, i, [LBRACKET] + EncodeItems(items) + [RBRACKET])
    ensures ScanValue(t, i) == Done(List(JoinedItems(items)), i + |EncodeItems(items)| + 2)
    decreases items, 1
  {
    hide ScanAtom, ScanString, ScanMembers, ScanItems, At, EncodeItems;
    var body := EncodeItems(items) + [RBRACKET];
    assert [LBRACKET] + EncodeItems(items) + [RBRACKET] == [LBRACKET] + body;
    AtSplit(t, i, [LBRACKET], body);
    AtChars(t, i, [LBRACKET]);
    AtChars(t, i + 1, body);
    assert t[i] == LBRACKET && t[i + 1] == body[0];
    if items == [] {
      NoItems();
      assert body == [RBRACKET];
    } else {
      ItemsStart(items);
      ItemsRead(items, t, i + 1);
    }
  }

  lemma NoItems()
    ensures EncodeItems([]) == [] && EncodeEntries([]) == [] && JoinedItems([]) == []
    ensures FromEntries(JoinedEntries([])) == []
  {
  }

  lemma {:induction false} DictReads(entries: seq<Entry>, t: Text, i: nat)
    requires (forall e :: e in entries ==> Proper(e.value))
    requires At(t, i, [LBRACE] + EncodeEntries(entries) + [RBRACE])
    ensures ScanValue(t, i) == Done(Dict(FromEntries(JoinedEntries(entries))), i + |EncodeEntries(entries)| + 2)
    decreases entries, 1
  {
    hide ScanAtom, ScanString, ScanMembers, ScanItems, At, EncodeEntries;
    var body := EncodeEntries(entries) + [RBRACE];
    assert [LBRACE] + EncodeEntries(entries) + [RBRACE] == [LBRACE] + body;
    AtSplit(t, i, [LBRACE], body);
    AtChars(t, i, [LBRACE]);
    AtChars(t, i + 1, body);
    assert t[i] == LBRACE && t[i + 1] == body[0];
    if entries == [] {
      NoItems();
      assert body == [RBRACE];
    } else {
      EntriesStart(entries);
      var ms := EntriesRead(entries, t, i + 1);
    }
  }

  lemma ItemsStart(items: seq<Value>)
    requires items != [] && Proper(items[0])
    ensures |EncodeItems(items)| > 0
    ensures !IsWs(EncodeItems(items)[0]) && EncodeItems(items)[0] !in {RBRACKET, RBRACE}
  {
    EncodeStarts(items[0]);
  }

  lemma {:induction false} ItemsRead(items: seq<Value>, t: Text, i: nat)
    requires items != [] && (forall x :: x in items ==> Proper(x))
    requires At(t, i, EncodeItems(items) + [RBRACKET])
    ensures ScanItems(t, i) == Done(JoinedItems(items), i + |EncodeItems(items)| + 1)
    decreases items, 0
  {
    hide ScanValue, Encode, At, SkipWs, Delimited, Joined, Proper;
    var first := Encode(items[0]);
    var e := i + |first|;
    if |items| == 1 {
      AtSplit(t, i, first, [RBRACKET]);
      AtChars(t, e, [RBRACKET]);
      StopsAt(t, e, RBRACKET);
      ValueReads(items[0], t, i);
      assert JoinedItems(items) == [Joined(items[0])];
    } else {
      var rest := EncodeItems(items[1..]) + [RBRACKET];
      assert EncodeItems(items) + [RBRACKET] == first + ([COMMA, SPACE] + rest);
      AtSplit(t, i, first, [COMMA, SPACE] + rest);
      AtSplit(t, e, [COMMA, SPACE], rest);
      ItemsStart(items[1..]);
      SeparatorReads(t, e, COMMA, rest);
      StopsAt(t, e, COMMA);
      ValueReads(items[0], t, i);
      ItemsRead(items[1..], t, e + 2);
    }
  }

  /** A separator and its space lead straight to what follows them. */
  lemma SeparatorReads(t: Text, e: nat, mark: CodePoint, next: Text)
    requires !IsWs(mark) && At(t, e, [mark, SPACE]) && At(t, e + 2, next)
    requires |next| > 0 && !IsWs(next[0])
    ensures e + 2 < |t| && t[e] == mark && t[e + 2] == next[0]
    ensures SkipWs(t, e) == e && SkipWs(t, e + 1) == e + 2
  {
    AtChars(t, e, [mark, SPACE]);
    AtChars(t, e + 2, next);
    assert t[e] == mark && t[e + 1] == SPACE && t[e + 2] == next[0];
  }

  lemma {:induction false} EntryReads(x: Entry, t: Text, i: nat)
    requires Proper(x.value) && At(t, i, EncodeEntry(x)) && Delimited(t, i + |EncodeEntry(x)|)
    ensures var r := ScanMember(t, i);
            && r.Done? && r.end == i + |EncodeEntry(x)|
            && Entry(r.value.key, r.value.value) == Entry(JoinPairs(x.key), Joined(x.value))
    decreases x
  {
    hide ScanValue, ScanString, Encode, EncodeChars, JoinPairs, Joined, At, SkipWs;
    var key, value := EncodeChars(x.key) + [QUOTE], Encode(x.value);
    assert EncodeEntry(x) == [QUOTE] + (key + ([COLON, SPACE] + value));
    AtSplit(t, i, [QUOTE], key + ([COLON, SPACE] + value));
    AtSplit(t, i + 1, key, [COLON, SPACE] + value);
    var c := i + 1 + |key|;
    AtSplit(t, c, [COLON, SPACE], value);
    AtChars(t, i, [QUOTE]);
    StringReads(t, i + 1, x.key);
    EncodeStarts(x.value);
    SeparatorReads(t, c, COLON, value);
    ValueReads(x.value, t, c + 2);
  }

  lemma StopsAt(t: Text, e: nat, mark: CodePoint)
    requires e < |t| && t[e] == mark && mark in {COMMA, RBRACKET, RBRACE}
    ensures SkipWs(t, e) == e && Delimited(t, e)
  {
  }

  lemma StripCons(m: Member, ms: seq<Member>)
    ensures Strip([m] + ms) == [Entry(m.key, m.value)] + Strip(ms)
    ensures Strip([m]) == [Entry(m.key, m.value)]
  {
  }

  lemma EntriesSplit(entries: seq<Entry>, t: Text, i: nat)
    requires |entries| > 1 && At(t, i, EncodeEntries(entries) + [RBRACE])
    ensures var first, rest := EncodeEntry(entries[0]), EncodeEntries(entries[1..]) + [RBRACE];
            && At(t, i, first) && At(t, i + |first|, [COMMA, SPACE]) && At(t, i + |first| + 2, rest)
            && |EncodeEntries(entries)| + 1 == |first| + 2 + |rest|
  {
    hide At, EncodeEntry;
    var first, rest := EncodeEntry(entries[0]), EncodeEntries(entries[1..]) + [RBRACE];
    assert EncodeEntries(entries) + [RBRACE] == first + ([COMMA, SPACE] + rest);
    AtSplit(t, i, first, [COMMA, SPACE] + rest);
    AtSplit(t, i + |first|, [COMMA, SPACE], rest);
  }

  lemma {:induction false} EntriesRead(entries: seq<Entry>, t: Text, i: nat) returns (ms: seq<Member>)
    requires entries != [] && (forall e :: e in entries ==> Proper(e.value))
    requires At(t, i, EncodeEntries(entries) + [RBRACE])
    ensures ScanMembers(t, i) == Done(ms, i + |EncodeEntries(entries)| + 1)
    ensures Strip(ms) == JoinedEntries(entries)
    decreases entries, 0
  {
    hide ScanMember, EncodeEntry, At, ScanValue, ScanString, SkipWs, Joined, JoinPairs, Strip, Proper, Delimited;
    var first := EncodeEntry(entries[0]);
    var e := i + |first|;
    if |entries| == 1 {
      AtSplit(t, i, first, [RBRACE]);
      AtChars(t, e, [RBRACE]);
      assert SkipWs(t, e) == e && Delimited(t, e) by {
        StopsAt(t, e, RBRACE);
      }
      EntryReads(entries[0], t, i);
      ms := [ScanMember(t, i).value];
      StripCons(ms[0], []);
      assert entries[1..] == [] && JoinedEntries([]) == [];
    } else {
      var rest := EncodeEntries(entries[1..]) + [RBRACE];
      EntriesSplit(entries, t, i);
      EntriesStart(entries[1..]);
      SeparatorReads(t, e, COMMA, rest);
      StopsAt(t, e, COMMA);
      EntryReads(entries[0], t, i);
      var tail := EntriesRead(entries[1..], t, e + 2);
      StripCons(ScanMember(t, i).value, tail);
      ms := [ScanMember(t, i).value] + tail;
    }
  }

  lemma EntriesStart(entries: seq<Entry>)
    requires entries != []
    ensures |EncodeEntries(entries)| > 0 && EncodeEntries(entries)[0] == QUOTE
  {
  }

  // ----- Which values survive -----

  lemma {:induction false} PutGrows(d: seq<Entry>, key: Text, value: Value)
    ensures |Put(d, key, value)| == |d| || Put(d, key, value) == d + [Entry(key, value)]
    ensures HasKey(d, key) <==> |Put(d, key, value)| == |d|
    decreases |d|
  {
    if d == [] {
    } else if d[0].key == key {
      assert HasKey(d, key);
    } else {
      PutGrows(d[1..], key, value);
      assert d == [d[0]] + d[1..];
      if HasKey(d[1..], key) {
        var i :| 0 <= i < |d[1..]| && d[1..][i].key == key;
        assert d[i + 1].key == key;
      }
      if HasKey(d, key) {
        var i :| 0 <= i < |d| && d[i].key == key;
        assert d[1..][i - 1].key == key;
      }
    }
  }

  lemma DistinctSnoc(front: seq<Entry>, last: Entry)
    ensures DistinctKeys(front + [last]) <==> DistinctKeys(front) && !HasKey(front, last.key)
  {
    var es := front + [last];
    assert forall i :: 0 <= i < |front| ==> es[i] == front[i];
    if DistinctKeys(es) {
      forall i | 0 <= i < |front| ensures front[i].key != last.key {
        assert es[i].key != es[|front|].key;
      }
      forall i, j | 0 <= i < j < |front| ensures front[i].key != front[j].key {
        assert es[i].key != es[j].key;
      }
    }
  }

  /** Building a dictionary keeps its length exactly when no key repeats, and then changes nothing. */
  lemma {:induction false} EntriesKept(es: seq<Entry>)
    ensures |FromEntries(es)| <= |es|
    ensures |FromEntries(es)| == |es| ==> FromEntries(es) == es
    ensures |FromEntries(es)| == |es| <==> DistinctKeys(es)
    decreases |es|
  {
    hide HasKey, DistinctKeys, Put;
    if es == [] {
      assert DistinctKeys([]) by {
        DistinctNone();
      }
    } else {
      var front, last := es[..|es| - 1], es[|es| - 1];
      EntriesKept(front);
      PutGrows(FromEntries(front), last.key, last.value);
      assert es == front + [last];
      DistinctSnoc(front, last);
    }
  }

  lemma DistinctNone()
    ensures DistinctKeys([])
  {
  }

  /** A value comes back unchanged exactly when it holds no split surrogate pair. */
  lemma {:induction false} JoinedIsSame(v: Value)
    requires Proper(v)
    ensures Joined(v) == v <==> Clean(v)
    decreases v
  {
    match v
    case Str(s) => JoinShrinks(s);
    case List(items) =>
      forall k | 0 <= k < |items| ensures Joined(items[k]) == items[k] <==> Clean(items[k]) {
        JoinedIsSame(items[k]);
      }
      if Clean(v) {
        assert JoinedItems(items) == items;
      }
    case Dict(entries) =>
      forall k | 0 <= k < |entries| ensures Joined(entries[k].value) == entries[k].value <==> Clean(entries[k].value) {
        JoinedIsSame(entries[k].value);
      }
      JoinedDictIsSame(entries);
    case _ =>
  }

  lemma JoinedDictIsSame(entries: seq<Entry>)
    requires DistinctKeys(entries)
    requires forall k :: 0 <= k < |entries| ==> (Joined(entries[k].value) == entries[k].value <==> Clean(entries[k].value))
    ensures FromEntries(JoinedEntries(entries)) == entries
            <==> forall e :: e in entries ==> NoSplitPair(e.key) && Clean(e.value)
  {
    hide Joined, Clean, JoinPairs, NoSplitPair, FromEntries, DistinctKeys;
    var joined := JoinedEntries(entries);
    forall k | 0 <= k < |entries|
      ensures joined[k] == entries[k] <==> NoSplitPair(entries[k].key) && Clean(entries[k].value)
    {
      JoinShrinks(entries[k].key);
    }
    EntriesKept(joined);
    if forall e :: e in entries ==> NoSplitPair(e.key) && Clean(e.value) {
      assert joined == entries;
    }
  }

  /** `json.loads(json.dumps(v))`: always accepted, joined, and equal to `v` exactly when `v` is clean. */
  lemma RoundTrip(v: Value)
    requires Proper(v)
    ensures Decode(Encode(v)) == Some(Joined(v))
    ensures Decode(Encode(v)) == Some(v) <==> Clean(v)
  {
    var t := Encode(v);
    assert t[0..|t|] == t;
    EncodeStarts(v);
    ValueReads(v, t, 0);
    JoinedIsSame(v);
  }

  /** A high surrogate followed by a low one never survives: one code point comes back. */
  lemma SplitPairIsLost(a: CodePoint, b: CodePoint)
    requires IsHigh(a) && IsLow(b)
    ensures Decode(Encode(Str([a, b]))) == Some(Str([JoinPair(a, b)]))
    ensures Decode(Encode(Str([a, b]))) != Some(Str([a, b]))
  {
    hide Decode, Encode, ScanValue;
    RoundTrip(Str([a, b]));
    assert [a, b][2..] == [];
    assert JoinPairs([a, b]) == [JoinPair(a, b)];
  }
}
