/** The JSON value scanner that `json_body.py` drives one member at a time.

    A text is a sequence of code points. Lone surrogates are code points too, because the
    bridge decodes its bytes with `surrogatepass`. The grammar is that of RFC 8259, sections
    2 to 7, as the standard decoder reads it: `NaN`, `Infinity` and `-Infinity` are values,
    raw control characters are refused inside strings, and two escapes that spell a
    surrogate pair become one code point. */
module JsonScanner {
  import opened Options

  type CodePoint = c: int | 0 <= c < 0x11_0000
  type Text = seq<CodePoint>

  const QUOTE: CodePoint := 0x22
  const BACKSLASH: CodePoint := 0x5c
  const COMMA: CodePoint := 0x2c
  const COLON: CodePoint := 0x3a
  const LBRACE: CodePoint := 0x7b
  const RBRACE: CodePoint := 0x7d
  const LBRACKET: CodePoint := 0x5b
  const RBRACKET: CodePoint := 0x5d
  const MINUS: CodePoint := 0x2d
  const PLUS: CodePoint := 0x2b
  const DOT: CodePoint := 0x2e
  const ZERO: CodePoint := 0x30
  const SPACE: CodePoint := 0x20
  const LOWER_U: CodePoint := 0x75

  const NULL_WORD: Text := [0x6e, 0x75, 0x6c, 0x6c]
  const TRUE_WORD: Text := [0x74, 0x72, 0x75, 0x65]
  const FALSE_WORD: Text := [0x66, 0x61, 0x6c, 0x73, 0x65]
  const NAN_WORD: Text := [0x4e, 0x61, 0x4e]
  const INFINITY_WORD: Text := [0x49, 0x6e, 0x66, 0x69, 0x6e, 0x69, 0x74, 0x79]
  const MINUS_INFINITY_WORD: Text := [0x2d, 0x49, 0x6e, 0x66, 0x69, 0x6e, 0x69, 0x74, 0x79]

  /** A decoded value. A number is known by its lexeme: what it rounds to is not modelled. */
  datatype Value =
    | Null
    | Bool(truth: bool)
    | NotANumber
    | Infinite(negative: bool)
    | Number(lexeme: Text)
    | Str(text: Text)
    | List(items: seq<Value>)
    | Dict(entries: seq<Entry>)

  datatype Entry = Entry(key: Text, value: Value)

  /** One `"key": value` of an object, with the offsets of its value. */
  datatype Member = Member(key: Text, value: Value, start: nat, end: nat)

  datatype Scan<+T> = Fail | Done(value: T, end: nat)

  // ----- Dictionaries: insertion order, one entry a key, the last value wins -----

  function Put(d: seq<Entry>, key: Text, value: Value): seq<Entry> {
    if d == [] then [Entry(key, value)]
    else if d[0].key == key then [Entry(key, value)] + d[1..]
    else [d[0]] + Put(d[1..], key, value)
  }

  function FromEntries(es: seq<Entry>): seq<Entry> {
    if es == [] then []
    else Put(FromEntries(es[..|es| - 1]), es[|es| - 1].key, es[|es| - 1].value)
  }

  function Strip(ms: seq<Member>): seq<Entry> {
    seq(|ms|, i requires 0 <= i < |ms| => Entry(ms[i].key, ms[i].value))
  }

  function FieldsOf(ms: seq<Member>): seq<Entry> {
    FromEntries(Strip(ms))
  }

  predicate HasKey(d: seq<Entry>, key: Text) {
    exists i :: 0 <= i < |d| && d[i].key == key
  }

  // ----- Lexical pieces -----

  predicate IsWs(c: CodePoint) {
    c == 0x20 || c == 0x09 || c == 0x0a || c == 0x0d
  }

  predicate IsDigit(c: CodePoint) {
    0x30 <= c <= 0x39
  }

  predicate IsHigh(c: int) {
    0xd800 <= c <= 0xdbff
  }

  predicate IsLow(c: int) {
    0xdc00 <= c <= 0xdfff
  }

  function JoinPair(high: int, low: int): CodePoint
    requires IsHigh(high) && IsLow(low)
  {
    0x1_0000 + (high - 0xd800) * 0x400 + (low - 0xdc00)
  }

  function SkipWs(t: Text, i: nat): (j: nat)
    requires i <= |t|
    ensures i <= j <= |t|
    ensures j < |t| ==> !IsWs(t[j])
    decreases |t| - i
  {
    if i < |t| && IsWs(t[i]) then SkipWs(t, i + 1) else i
  }

  predicate At(t: Text, i: nat, w: Text) {
    i + |w| <= |t| && t[i..i + |w|] == w
  }

  function Digits(t: Text, i: nat): (j: nat)
    requires i <= |t|
    ensures i <= j <= |t|
    decreases |t| - i
  {
    if i < |t| && IsDigit(t[i]) then Digits(t, i + 1) else i
  }

  function FractionEnd(t: Text, i: nat): (j: nat)
    requires i <= |t|
    ensures i <= j <= |t|
  {
    if i + 1 < |t| && t[i] == DOT && IsDigit(t[i + 1]) then Digits(t, i + 2) else i
  }

  predicate IsExponentMark(c: CodePoint) {
    c == 0x65 || c == 0x45
  }

  function ExponentEnd(t: Text, i: nat): (j: nat)
    requires i <= |t|
    ensures i <= j <= |t|
  {
    if i < |t| && IsExponentMark(t[i]) then
      var first := if i + 1 < |t| && (t[i + 1] == PLUS || t[i + 1] == MINUS) then i + 2 else i + 1;
      var last := Digits(t, first);
      if last > first then last else i
    else i
  }

  /** Where the number starting at `i` ends, or `i` when none starts there. A dot or an
      exponent mark with no digits behind it is left for the caller to trip over. */
  function NumberEnd(t: Text, i: nat): (j: nat)
    requires i <= |t|
    ensures i <= j <= |t|
  {
    var first := if i < |t| && t[i] == MINUS then i + 1 else i;
    if first < |t| && IsDigit(t[first]) then ExponentEnd(t, FractionEnd(t, WholeEnd(t, first))) else i
  }

  function WholeEnd(t: Text, i: nat): (j: nat)
    requires i < |t| && IsDigit(t[i])
    ensures i < j <= |t|
  {
    if t[i] == ZERO then i + 1 else Digits(t, i)
  }

  function HexDigit(c: CodePoint): Option<nat> {
    if 0x30 <= c <= 0x39 then Some(c - 0x30)
    else if 0x61 <= c <= 0x66 then Some(c - 0x61 + 10)
    else if 0x41 <= c <= 0x46 then Some(c - 0x41 + 10)
    else None
  }

  function Hex4(t: Text, i: nat): (r: Option<nat>)
    ensures r.Some? ==> r.value < 0x1_0000 && i + 4 <= |t|
  {
    if i + 4 > |t| then None
    else
      var a, b, c, d := HexDigit(t[i]), HexDigit(t[i + 1]), HexDigit(t[i + 2]), HexDigit(t[i + 3]);
      if a.Some? && b.Some? && c.Some? && d.Some?
      then Some(a.value * 0x1000 + b.value * 0x100 + c.value * 0x10 + d.value)
      else None
  }

  function SimpleEscape(c: CodePoint): Option<CodePoint> {
    if c == QUOTE || c == BACKSLASH || c == 0x2f then Some(c)
    else if c == 0x62 then Some(0x08)
    else if c == 0x66 then Some(0x0c)
    else if c == 0x6e then Some(0x0a)
    else if c == 0x72 then Some(0x0d)
    else if c == 0x74 then Some(0x09)
    else None
  }

  predicate UnicodeEscapeAt(t: Text, i: nat) {
    i + 1 < |t| && t[i] == BACKSLASH && t[i + 1] == LOWER_U
  }

  /** One character of a string body at `i`: what it decodes to and where the next one
      starts. `Fail` when there is none: an unfinished, misspelt or control character. */
  function ScanChar(t: Text, i: nat): (r: Scan<CodePoint>)
    requires i < |t| && t[i] != QUOTE
    ensures r.Done? ==> i < r.end <= |t|
  {
    if t[i] == BACKSLASH then
      if i + 1 >= |t| then Fail
      else if t[i + 1] == LOWER_U then
        var unit := Hex4(t, i + 2);
        if unit.None? then Fail
        else if IsHigh(unit.value) && UnicodeEscapeAt(t, i + 6) then
          var next := Hex4(t, i + 8);
          if next.None? then Fail
          else if IsLow(next.value) then Done(JoinPair(unit.value, next.value), i + 12)
          else Done(unit.value, i + 6)
        else Done(unit.value, i + 6)
      else
        var plain := SimpleEscape(t[i + 1]);
        if plain.None? then Fail else Done(plain.value, i + 2)
    else if t[i] < 0x20 then Fail
    else Done(t[i], i + 1)
  }

  /** The rest of a string whose opening quote is just before `i`. */
  function ScanString(t: Text, i: nat): (r: Scan<Text>)
    requires i <= |t|
    ensures r.Done? ==> i < r.end <= |t|
    decreases |t| - i
  {
    if i >= |t| then Fail
    else if t[i] == QUOTE then Done([], i + 1)
    else
      var first := ScanChar(t, i);
      if first.Fail? then Fail
      else
        var rest := ScanString(t, first.end);
        if rest.Fail? then Fail else Done([first.value] + rest.value, rest.end)
  }

  // ----- Values -----

  datatype Word = Word(spelling: Text, value: Value)

  /** The word a character can only be the start of. */
  function WordFor(c: CodePoint): (w: Option<Word>)
    ensures w.Some? ==> |w.value.spelling| > 1 && w.value.spelling[0] == c
  {
    if c == 0x6e then Some(Word(NULL_WORD, Null))
    else if c == 0x74 then Some(Word(TRUE_WORD, Bool(true)))
    else if c == 0x66 then Some(Word(FALSE_WORD, Bool(false)))
    else if c == 0x4e then Some(Word(NAN_WORD, NotANumber))
    else if c == 0x49 then Some(Word(INFINITY_WORD, Infinite(false)))
    else if c == MINUS then Some(Word(MINUS_INFINITY_WORD, Infinite(true)))
    else None
  }

  function ScanAtom(t: Text, i: nat): (r: Scan<Value>)
    requires i < |t|
    ensures r.Done? ==> i < r.end <= |t|
  {
    var word := WordFor(t[i]);
    if word.Some? && At(t, i, word.value.spelling) then
      Done(word.value.value, i + |word.value.spelling|)
    else
      var e := NumberEnd(t, i);
      if e > i then Done(Number(t[i..e]), e) else Fail
  }

  function ScanValue(t: Text, i: nat): (r: Scan<Value>)
    requires i <= |t|
    ensures r.Done? ==> i < r.end <= |t|
    decreases |t| - i, 0
  {
    if i >= |t| then Fail
    else if t[i] == QUOTE then
      var s := ScanString(t, i + 1);
      if s.Fail? then Fail else Done(Str(s.value), s.end)
    else if t[i] == LBRACE then
      var j := SkipWs(t, i + 1);
      if j < |t| && t[j] == RBRACE then Done(Dict([]), j + 1)
      else
        var ms := ScanMembers(t, j);
        if ms.Fail? then Fail else Done(Dict(FieldsOf(ms.value)), ms.end)
    else if t[i] == LBRACKET then
      var j := SkipWs(t, i + 1);
      if j < |t| && t[j] == RBRACKET then Done(List([]), j + 1)
      else
        var vs := ScanItems(t, j);
        if vs.Fail? then Fail else Done(List(vs.value), vs.end)
    else ScanAtom(t, i)
  }

  function ScanItems(t: Text, i: nat): (r: Scan<seq<Value>>)
    requires i <= |t|
    ensures r.Done? ==> i < r.end <= |t|
    decreases |t| - i, 1
  {
    var v := ScanValue(t, i);
    if v.Fail? then Fail
    else
      var n := SkipWs(t, v.end);
      if n < |t| && t[n] == COMMA then
        var rest := ScanItems(t, SkipWs(t, n + 1));
        if rest.Fail? then Fail else Done([v.value] + rest.value, rest.end)
      else if n < |t| && t[n] == RBRACKET then Done([v.value], n + 1)
      else Fail
  }

  /** One member: its quoted key, its colon and its value. The result ends where the value
      does. */
  function ScanMember(t: Text, i: nat): (r: Scan<Member>)
    requires i <= |t|
    ensures r.Done? ==> i < r.value.start < r.value.end == r.end <= |t|
    ensures r.Done? ==> ScanValue(t, r.value.start) == Done(r.value.value, r.end)
    decreases |t| - i, 0
  {
    if i >= |t| || t[i] != QUOTE then Fail
    else
      var key := ScanString(t, i + 1);
      if key.Fail? then Fail
      else
        var c := SkipWs(t, key.end);
        if c >= |t| || t[c] != COLON then Fail
        else
          var start := SkipWs(t, c + 1);
          var v := ScanValue(t, start);
          if v.Fail? then Fail else Done(Member(key.value, v.value, start, v.end), v.end)
  }

  /** The members of a non-empty object, from the first key to past the closing brace. */
  function ScanMembers(t: Text, i: nat): (r: Scan<seq<Member>>)
    requires i <= |t|
    ensures r.Done? ==> i < r.end <= |t| && |r.value| > 0
    decreases |t| - i, 1
  {
    var m := ScanMember(t, i);
    if m.Fail? then Fail
    else
      var n := SkipWs(t, m.end);
      if n < |t| && t[n] == COMMA then
        var rest := ScanMembers(t, SkipWs(t, n + 1));
        if rest.Fail? then Fail else Done([m.value] + rest.value, rest.end)
      else if n < |t| && t[n] == RBRACE then Done([m.value], n + 1)
      else Fail
  }

  /** The whole-document decoder: one value with nothing but whitespace around it. */
  function Decode(t: Text): Option<Value> {
    var v := ScanValue(t, SkipWs(t, 0));
    if v.Done? && SkipWs(t, v.end) == |t| then Some(v.value) else None
  }

  // ----- Locality: a scan depends only on the text it consumed -----

  /** `t` at `i..e` reads the same as `u` at `i + d..e + d`. */
  predicate Agree(t: Text, u: Text, d: int, i: nat, e: nat) {
    && 0 <= i + d
    && e <= |t| && e + d <= |u|
    && forall j :: i <= j < e ==> t[j] == u[j + d]
  }

  /** Nothing at `e` could extend a number that ends there. */
  predicate Delimited(t: Text, e: nat) {
    e < |t| ==> !IsDigit(t[e]) && t[e] != DOT && !IsExponentMark(t[e])
  }

  function Move(m: Member, d: int): Member {
    if m.start + d >= 0 && m.end + d >= 0 then m.(start := m.start + d, end := m.end + d) else m
  }

  function Shift(ms: seq<Member>, d: int): seq<Member> {
    seq(|ms|, i requires 0 <= i < |ms| => Move(ms[i], d))
  }

  lemma {:induction false} WsLocal(t: Text, u: Text, d: int, i: nat, k: nat)
    requires i <= k < |t| && SkipWs(t, i) == k
    requires Agree(t, u, d, i, k + 1)
    ensures SkipWs(u, i + d) == k + d
    decreases k - i
  {
    assert t[i] == u[i + d];
    if i < k {
      WsLocal(t, u, d, i + 1, k);
    }
  }

  lemma {:induction false} DigitsLocal(t: Text, u: Text, d: int, i: nat, k: nat)
    requires i <= k <= |t| && Digits(t, i) == k
    requires Agree(t, u, d, i, k)
    requires k + d < |u| ==> !IsDigit(u[k + d])
    ensures Digits(u, i + d) == k + d
    decreases k - i
  {
    if i < k {
      assert t[i] == u[i + d];
      DigitsLocal(t, u, d, i + 1, k);
    }
  }

  lemma {:induction false} DigitsAre(t: Text, i: nat)
    requires i <= |t|
    ensures forall j :: i <= j < Digits(t, i) ==> IsDigit(t[j])
    ensures Digits(t, i) < |t| ==> !IsDigit(t[Digits(t, i)])
    decreases |t| - i
  {
    if i < |t| && IsDigit(t[i]) {
      DigitsAre(t, i + 1);
    }
  }

  lemma ExponentLocal(t: Text, u: Text, d: int, i: nat, e: nat)
    requires i <= |t| && ExponentEnd(t, i) == e
    requires Agree(t, u, d, i, e) && Delimited(u, e + d)
    ensures ExponentEnd(u, i + d) == e + d
  {
    if e > i {
      assert t[i] == u[i + d];
      var first := if i + 1 < |t| && (t[i + 1] == PLUS || t[i + 1] == MINUS) then i + 2 else i + 1;
      DigitsAre(t, first);
      assert t[i + 1] == u[i + 1 + d];
      DigitsLocal(t, u, d, first, e);
    }
  }

  lemma FractionLocal(t: Text, u: Text, d: int, i: nat, k: nat)
    requires i <= |t| && FractionEnd(t, i) == k
    requires Agree(t, u, d, i, k)
    requires k + d < |u| ==> !IsDigit(u[k + d]) && (k == i ==> u[k + d] != DOT)
    ensures FractionEnd(u, i + d) == k + d
  {
    if k > i {
      assert t[i] == u[i + d] && t[i + 1] == u[i + 1 + d];
      DigitsLocal(t, u, d, i + 2, k);
    }
  }

  lemma WholeLocal(t: Text, u: Text, d: int, i: nat, k: nat)
    requires i < |t| && IsDigit(t[i]) && WholeEnd(t, i) == k
    requires Agree(t, u, d, i, k) && (k + d < |u| ==> !IsDigit(u[k + d]))
    ensures i + d < |u| && IsDigit(u[i + d]) && WholeEnd(u, i + d) == k + d
  {
    assert t[i] == u[i + d];
    if t[i] != ZERO {
      DigitsLocal(t, u, d, i, k);
    }
  }

  lemma NumberLocal(t: Text, u: Text, d: int, i: nat)
    requires i <= |t| && i < NumberEnd(t, i)
    requires Agree(t, u, d, i, NumberEnd(t, i)) && Delimited(u, NumberEnd(t, i) + d)
    ensures NumberEnd(u, i + d) == NumberEnd(t, i) + d
  {
    assert t[i] == u[i + d];
    var first := if t[i] == MINUS then i + 1 else i;
    var whole := WholeEnd(t, first);
    var frac := FractionEnd(t, whole);
    var e := ExponentEnd(t, frac);
    ExponentLocal(t, u, d, frac, e);
    assert frac + d < |u| ==> !IsDigit(u[frac + d]) && u[frac + d] != DOT by {
      if frac < e {
        assert IsExponentMark(t[frac]) && t[frac] == u[frac + d];
      }
    }
    FractionLocal(t, u, d, whole, frac);
    assert whole + d < |u| ==> !IsDigit(u[whole + d]) by {
      if whole < frac {
        assert t[whole] == DOT && t[whole] == u[whole + d];
      }
    }
    WholeLocal(t, u, d, first, whole);
  }

  lemma HexLocal(t: Text, u: Text, d: int, i: nat)
    requires Hex4(t, i).Some? && Agree(t, u, d, i, i + 4)
    ensures Hex4(u, i + d) == Hex4(t, i)
  {
    assert t[i] == u[i + d] && t[i + 1] == u[i + 1 + d] && t[i + 2] == u[i + 2 + d] && t[i + 3] == u[i + 3 + d];
  }

  lemma CharLocal(t: Text, u: Text, d: int, i: nat, e: nat)
    requires i < |t| && t[i] != QUOTE
    requires ScanChar(t, i).Done? && ScanString(t, ScanChar(t, i).end).Done?
    requires e == ScanString(t, ScanChar(t, i).end).end && Agree(t, u, d, i, e)
    ensures u[i + d] == t[i]
    ensures ScanChar(u, i + d) == Done(ScanChar(t, i).value, ScanChar(t, i).end + d)
  {
    var c := ScanChar(t, i);
    assert t[i] == u[i + d];
    if t[i] == BACKSLASH {
      assert t[i + 1] == u[i + 1 + d];
      if t[i + 1] == LOWER_U {
        HexLocal(t, u, d, i + 2);
        if IsHigh(Hex4(t, i + 2).value) {
          if c.end == i + 12 {
            assert t[i + 6] == u[i + 6 + d] && t[i + 7] == u[i + 7 + d];
            HexLocal(t, u, d, i + 8);
          } else {
            assert t[i + 6] == u[i + 6 + d];
            if t[i + 6] == BACKSLASH {
              assert ScanChar(t, i + 6).Done?;
              assert t[i + 7] == u[i + 7 + d];
              if t[i + 7] == LOWER_U {
                HexLocal(t, u, d, i + 8);
              }
            }
          }
        }
      }
    }
  }

  lemma {:induction false} StringLocal(t: Text, u: Text, d: int, i: nat)
    requires i <= |t| && ScanString(t, i).Done?
    requires Agree(t, u, d, i, ScanString(t, i).end)
    ensures ScanString(u, i + d) == Done(ScanString(t, i).value, ScanString(t, i).end + d)
    decreases |t| - i
  {
    assert t[i] == u[i + d];
    if t[i] != QUOTE {
      CharLocal(t, u, d, i, ScanString(t, i).end);
      StringLocal(t, u, d, ScanChar(t, i).end);
    }
  }

  lemma WordLocal(t: Text, u: Text, d: int, i: nat, w: Text)
    requires Agree(t, u, d, i, i + |w|)
    ensures At(t, i, w) <==> At(u, i + d, w)
  {
    assert t[i..i + |w|] == u[i + d..i + d + |w|];
  }

  lemma NoInfinity(t: Text, i: nat)
    requires i + 1 < |t| && IsDigit(t[i + 1])
    ensures !At(t, i, MINUS_INFINITY_WORD)
  {
    if i + 9 <= |t| {
      assert t[i..i + 9][1] == t[i + 1];
    }
  }

  lemma NumberStarts(t: Text, i: nat)
    requires i < |t| && NumberEnd(t, i) > i
    ensures IsDigit(t[i]) || (t[i] == MINUS && i + 1 < |t| && i + 1 < NumberEnd(t, i) && IsDigit(t[i + 1]))
  {
  }

  lemma AtomLocal(t: Text, u: Text, d: int, i: nat)
    requires i < |t| && ScanAtom(t, i).Done?
    requires Agree(t, u, d, i, ScanAtom(t, i).end) && Delimited(u, ScanAtom(t, i).end + d)
    ensures i + d < |u| && ScanAtom(u, i + d) == Done(ScanAtom(t, i).value, ScanAtom(t, i).end + d)
  {
    hide NumberEnd, Delimited;
    assert t[i] == u[i + d];
    var word := WordFor(t[i]);
    if word.Some? && At(t, i, word.value.spelling) {
      WordLocal(t, u, d, i, word.value.spelling);
    } else {
      var e := NumberEnd(t, i);
      NumberLocal(t, u, d, i);
      NumberStarts(t, i);
      if t[i] == MINUS {
        assert t[i + 1] == u[i + 1 + d];
        NoInfinity(u, i + d);
      }
      assert t[i..e] == u[i + d..e + d];
    }
  }

  lemma {:induction false} ValueLocal(t: Text, u: Text, d: int, i: nat)
    requires i <= |t| && ScanValue(t, i).Done?
    requires Agree(t, u, d, i, ScanValue(t, i).end) && Delimited(u, ScanValue(t, i).end + d)
    ensures ScanValue(u, i + d) == Done(ScanValue(t, i).value, ScanValue(t, i).end + d)
    decreases |t| - i, 0
  {
    hide ScanMembers, ScanItems, ScanString, ScanAtom, SkipWs, Delimited;
    assert t[i] == u[i + d];
    if t[i] == QUOTE {
      StringLocal(t, u, d, i + 1);
    } else if t[i] == LBRACE {
      var j := SkipWs(t, i + 1);
      WsLocal(t, u, d, i + 1, j);
      assert t[j] == u[j + d];
      if t[j] != RBRACE {
        MembersLocal(t, u, d, j);
        var ms := ScanMembers(t, j).value;
        assert Strip(Shift(ms, d)) == Strip(ms);
      }
    } else if t[i] == LBRACKET {
      var j := SkipWs(t, i + 1);
      WsLocal(t, u, d, i + 1, j);
      assert t[j] == u[j + d];
      if t[j] != RBRACKET {
        ItemsLocal(t, u, d, j);
      }
    } else {
      AtomLocal(t, u, d, i);
    }
  }

  /** A value that something legal follows is delimited, wherever it is copied to. */
  lemma StopsHere(u: Text, e: nat, n: nat)
    requires e <= |u| && SkipWs(u, e) == n < |u|
    requires u[n] in {COMMA, RBRACKET, RBRACE}
    ensures Delimited(u, e)
  {
  }

  lemma {:induction false} ItemsLocal(t: Text, u: Text, d: int, i: nat)
    requires i <= |t| && ScanItems(t, i).Done?
    requires Agree(t, u, d, i, ScanItems(t, i).end)
    ensures ScanItems(u, i + d) == Done(ScanItems(t, i).value, ScanItems(t, i).end + d)
    decreases |t| - i, 1
  {
    hide ScanValue, SkipWs, Delimited;
    var v := ScanValue(t, i);
    var n := SkipWs(t, v.end);
    WsLocal(t, u, d, v.end, n);
    assert t[n] == u[n + d];
    StopsHere(u, v.end + d, n + d);
    ValueLocal(t, u, d, i);
    if t[n] == COMMA {
      var k := SkipWs(t, n + 1);
      assert k < |t|;
      WsLocal(t, u, d, n + 1, k);
      ItemsLocal(t, u, d, k);
    }
  }

  lemma MemberHeadLocal(t: Text, u: Text, d: int, i: nat)
    requires i <= |t| && ScanMember(t, i).Done?
    requires Agree(t, u, d, i, ScanMember(t, i).value.start)
    ensures var m := ScanMember(t, i).value;
            && i + d < |u| && u[i + d] == QUOTE
            && ScanString(u, i + 1 + d) == Done(m.key, ScanString(t, i + 1).end + d)
            && var c := SkipWs(t, ScanString(t, i + 1).end);
            && SkipWs(u, ScanString(t, i + 1).end + d) == c + d < |u| && u[c + d] == COLON
            && c < m.start && SkipWs(t, c + 1) == m.start
  {
    hide ScanValue, ScanString;
    assert t[i] == u[i + d];
    StringLocal(t, u, d, i + 1);
    var c := SkipWs(t, ScanString(t, i + 1).end);
    WsLocal(t, u, d, ScanString(t, i + 1).end, c);
    assert t[c] == u[c + d];
  }

  lemma {:induction false} MemberLocal(t: Text, u: Text, d: int, i: nat)
    requires i <= |t| && ScanMember(t, i).Done?
    requires Agree(t, u, d, i, ScanMember(t, i).end) && Delimited(u, ScanMember(t, i).end + d)
    ensures var m := ScanMember(t, i).value;
            && m.start + d >= 0 && m.end + d >= 0
            && ScanMember(u, i + d) == Done(Move(m, d), m.end + d)
    decreases |t| - i, 0
  {
    hide ScanValue, ScanString;
    MemberHeadLocal(t, u, d, i);
    var m := ScanMember(t, i).value;
    var c := SkipWs(t, ScanString(t, i + 1).end);
    WsLocal(t, u, d, c + 1, m.start);
    ValueLocal(t, u, d, m.start);
  }

  lemma ShiftCons(m: Member, ms: seq<Member>, d: int)
    ensures Shift([m] + ms, d) == [Move(m, d)] + Shift(ms, d)
    ensures Shift([m], d) == [Move(m, d)]
  {
  }

  lemma {:induction false} MembersLocal(t: Text, u: Text, d: int, i: nat)
    requires i <= |t| && ScanMembers(t, i).Done?
    requires Agree(t, u, d, i, ScanMembers(t, i).end)
    ensures ScanMembers(u, i + d) == Done(Shift(ScanMembers(t, i).value, d), ScanMembers(t, i).end + d)
    decreases |t| - i, 1
  {
    hide ScanMember, ScanValue, SkipWs, Shift, Delimited;
    var m := ScanMember(t, i);
    var n := SkipWs(t, m.end);
    WsLocal(t, u, d, m.end, n);
    assert t[n] == u[n + d];
    StopsHere(u, m.end + d, n + d);
    MemberLocal(t, u, d, i);
    if t[n] == COMMA {
      var k := SkipWs(t, n + 1);
      assert k < |t|;
      WsLocal(t, u, d, n + 1, k);
      MembersLocal(t, u, d, k);
      var rest := ScanMembers(t, k).value;
      ShiftCons(m.value, rest, d);
    } else {
      ShiftCons(m.value, [], d);
    }
  }
}
