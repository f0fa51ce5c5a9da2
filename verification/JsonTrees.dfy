/** The other half: whatever the decoder reads has a concrete syntax tree. */
module JsonTrees {
  import opened JsonEncoder
  import opened JsonGrammar
  import opened JsonScanner
  import opened JsonTexts
  import opened Options

  lemma {:induction false} BlankRun(t: Text, i: nat)
    requires i <= |t|
    ensures AreBlanks(t[i..SkipWs(t, i)])
    decreases |t| - i
  {
    if i < |t| && IsWs(t[i]) {
      BlankRun(t, i + 1);
      assert t[i..SkipWs(t, i)] == [t[i]] + t[i + 1..SkipWs(t, i)];
    }
  }

  lemma SliceJoin(t: Text, i: nat, j: nat, k: nat)
    requires i <= j <= k <= |t|
    ensures t[i..j] + t[j..k] == t[i..k]
  {
  }

  lemma OneLong(t: Text, i: nat)
    requires i < |t|
    ensures t[i..i + 1] == [t[i]]
  {
  }

  // ----- Strings -----

  lemma HexIs(c: CodePoint)
    requires HexDigit(c).Some?
    ensures IsHex(c) && Nibble(c) == HexDigit(c).value
  {
  }

  function UnitAt(t: Text, i: nat): Spelling
    requires i + 6 <= |t|
  {
    Unit(t[i + 2..i + 6])
  }

  lemma UnitFrom(t: Text, i: nat)
    requires i + 1 < |t| && t[i] == BACKSLASH && t[i + 1] == LOWER_U && Hex4(t, i + 2).Some?
    ensures LegalChar(UnitAt(t, i)) && ValueOf(UnitAt(t, i)) == Hex4(t, i + 2).value && ShowChar(UnitAt(t, i)) == t[i..i + 6]
  {
    HexIs(t[i + 2]);
    HexIs(t[i + 3]);
    HexIs(t[i + 4]);
    HexIs(t[i + 5]);
    var d := t[i + 2..i + 6];
    assert d[0] == t[i + 2] && d[1] == t[i + 3] && d[2] == t[i + 4] && d[3] == t[i + 5];
    hide HexDigit, Nibble, IsHex;
    assert t[i..i + 6] == [t[i], t[i + 1]] + d;
  }

  /** A character read on its own. */
  lemma SpellingFrom(t: Text, i: nat) returns (x: Spelling)
    requires i < |t| && t[i] != QUOTE && ScanChar(t, i).Done? && ScanChar(t, i).end != i + 12
    ensures LegalChar(x) && ShowChar(x) == t[i..ScanChar(t, i).end] && ValueOf(x) == ScanChar(t, i).value
    ensures x.Unit? <==> UnicodeEscapeAt(t, i)
    ensures x.Unit? && IsHigh(ValueOf(x)) && UnicodeEscapeAt(t, i + 6) ==> Hex4(t, i + 8).Some? && !IsLow(Hex4(t, i + 8).value)
  {
    if t[i] == BACKSLASH && t[i + 1] == LOWER_U {
      UnitFrom(t, i);
      x := UnitAt(t, i);
      hide Hex4, ValueOf, ShowChar, LegalChar;
    } else if t[i] == BACKSLASH {
      x := Escaped(t[i + 1]);
      assert t[i..i + 2] == [t[i], t[i + 1]];
    } else {
      x := Plain(t[i]);
      OneLong(t, i);
    }
  }

  lemma PairFrom(t: Text, i: nat)
    requires i < |t| && t[i] != QUOTE && ScanChar(t, i).Done? && ScanChar(t, i).end == i + 12
    ensures var a, b := UnitAt(t, i), UnitAt(t, i + 6);
            && LegalChar(a) && LegalChar(b) && ArePair(a, b) && ShowChar(a) + ShowChar(b) == t[i..i + 12]
            && ScanChar(t, i).value == 0x1_0000 + (ValueOf(a) - 0xd800) * 1024 + (ValueOf(b) - 0xdc00)
  {
    UnitFrom(t, i);
    UnitFrom(t, i + 6);
    SliceJoin(t, i, i + 6, i + 12);
    hide Hex4, ValueOf, ShowChar, LegalChar;
  }

  /** The first of some characters, as the text shows it. */
  lemma ShownFirst(t: Text, i: nat, chars: seq<Spelling>, end: nat)
    requires AreLegal(chars) && i <= end <= |t| && ShowChars(chars) + [0x22] == t[i..end]
    ensures i < |t| && (UnicodeEscapeAt(t, i) <==> chars != [] && chars[0].Unit?)
    ensures chars != [] && chars[0].Unit? ==> Hex4(t, i + 2) == Some(ValueOf(chars[0]))
  {
    assert At(t, i, ShowChars(chars) + [0x22]);
    if chars == [] {
      assert ShowChars(chars) + [0x22] == [0x22];
      AtFirst(t, i, [0x22]);
    } else {
      assert ShowChars(chars) + [0x22] == ShowChar(chars[0]) + (ShowChars(chars[1..]) + [0x22]);
      AtSplit(t, i, ShowChar(chars[0]), ShowChars(chars[1..]) + [0x22]);
      FirstIsLegal(chars);
      SpellingStarts(t, i, chars[0]);
      if chars[0].Unit? {
        UnitIsHex(t, i, chars[0]);
      }
    }
  }

  lemma LegalCons(x: Spelling, rest: seq<Spelling>)
    requires LegalChar(x) && AreLegal(rest)
    ensures AreLegal([x] + rest) && ([x] + rest)[1..] == rest
    ensures ShowChars([x] + rest) == ShowChar(x) + ShowChars(rest)
  {
  }

  lemma {:induction false} CharsFrom(t: Text, i: nat) returns (chars: seq<Spelling>)
    requires i <= |t| && ScanString(t, i).Done?
    ensures AreLegal(chars) && ShowChars(chars) + [0x22] == t[i..ScanString(t, i).end]
    ensures CharsMean(chars) == ScanString(t, i).value
    decreases |t| - i
  {
    if t[i] == QUOTE {
      chars := [];
      OneLong(t, i);
    } else {
      var next := ScanChar(t, i).end;
      var end := ScanString(t, i).end;
      var rest := CharsFrom(t, next);
      SliceJoin(t, i, next, end);
      if next == i + 12 {
        chars := PairChars(t, i, rest, end);
      } else {
        chars := SingleChars(t, i, rest, end);
      }
    }
  }

  lemma PairChars(t: Text, i: nat, rest: seq<Spelling>, end: nat) returns (chars: seq<Spelling>)
    requires i < |t| && t[i] != QUOTE && ScanChar(t, i).Done? && ScanChar(t, i).end == i + 12
    requires i + 12 <= end <= |t| && AreLegal(rest) && ShowChars(rest) + [0x22] == t[i + 12..end]
    ensures AreLegal(chars) && ShowChars(chars) + [0x22] == t[i..end]
    ensures CharsMean(chars) == [ScanChar(t, i).value] + CharsMean(rest)
  {
    PairFrom(t, i);
    var a, b := UnitAt(t, i), UnitAt(t, i + 6);
    hide ScanChar, ShowChar, LegalChar, ValueOf, AreLegal, ShowChars, ArePair, CharsMean, UnitAt;
    LegalCons(b, rest);
    LegalCons(a, [b] + rest);
    chars := [a] + ([b] + rest);
    PairMeans(a, b, rest);
    Regrouped2(ShowChar(a), ShowChar(b), ShowChars(rest));
    Regrouped2(ShowChar(a) + ShowChar(b), ShowChars(rest), [0x22]);
    SliceJoin(t, i, i + 12, end);
  }

  lemma PairMeans(a: Spelling, b: Spelling, rest: seq<Spelling>)
    requires LegalChar(a) && LegalChar(b) && ArePair(a, b) && AreLegal(rest) && AreLegal([a] + ([b] + rest))
    ensures CharsMean([a] + ([b] + rest)) == [0x1_0000 + (ValueOf(a) - 0xd800) * 1024 + (ValueOf(b) - 0xdc00)] + CharsMean(rest)
  {
    var chars := [a] + ([b] + rest);
    assert chars[2..] == rest && chars[0] == a && chars[1] == b;
    hide LegalChar, ValueOf;
  }

  lemma SingleChars(t: Text, i: nat, rest: seq<Spelling>, end: nat) returns (chars: seq<Spelling>)
    requires i < |t| && t[i] != QUOTE && ScanChar(t, i).Done? && ScanChar(t, i).end != i + 12
    requires ScanChar(t, i).end <= end <= |t| && AreLegal(rest) && ShowChars(rest) + [0x22] == t[ScanChar(t, i).end..end]
    ensures AreLegal(chars) && ShowChars(chars) + [0x22] == t[i..end]
    ensures CharsMean(chars) == [ScanChar(t, i).value] + CharsMean(rest)
  {
    var x := SpellingFrom(t, i);
    var next := ScanChar(t, i).end;
    LegalCons(x, rest);
    chars := [x] + rest;
    ShownFirst(t, next, rest, end);
    assert x.Unit? ==> next == i + 6 by {
      assert |ShowChar(x)| == next - i;
    }
    assert chars[0] == x && (rest != [] ==> chars[1] == rest[0]);
    assert |chars| >= 2 ==> !ArePair(chars[0], chars[1]);
    hide ScanChar, ShowChar, LegalChar, ValueOf, AreLegal, ShowChars, Hex4, ArePair;
    assert ShowChar(x) + ShowChars(rest) + [0x22] == ShowChar(x) + (ShowChars(rest) + [0x22]);
    SliceJoin(t, i, next, end);
  }

  // ----- Numbers -----

  lemma {:induction false} DigitRun(t: Text, i: nat)
    requires i <= |t|
    ensures AreDigits(t[i..Digits(t, i)])
    decreases |t| - i
  {
    if i < |t| && IsDigit(t[i]) {
      DigitRun(t, i + 1);
      assert t[i..Digits(t, i)] == [t[i]] + t[i + 1..Digits(t, i)];
    }
  }

  lemma WholeFrom(t: Text, i: nat) returns (w: Text)
    requires i < |t| && IsDigit(t[i])
    ensures w == t[i..WholeEnd(t, i)] && w != [] && AreDigits(w) && (w[0] == 0x30 ==> |w| == 1)
  {
    w := t[i..WholeEnd(t, i)];
    if t[i] == ZERO {
      OneLong(t, i);
    } else {
      DigitRun(t, i);
    }
  }

  lemma PartFrom(t: Text, i: nat) returns (part: Text)
    requires i <= |t|
    ensures AreDigits(part) && (if part == [] then [] else [0x2e] + part) == t[i..FractionEnd(t, i)]
  {
    var k := FractionEnd(t, i);
    if k > i {
      part := t[i + 1..k];
      DigitRun(t, i + 1);
      assert Digits(t, i + 1) == k;
      assert t[i..k] == [t[i]] + part;
    } else {
      part := [];
    }
  }

  lemma PowerFrom(t: Text, i: nat) returns (mark: CodePoint, sign: Text, power: Text)
    requires i <= |t|
    ensures AreDigits(power) && (mark == 0x65 || mark == 0x45) && (sign == [] || sign == [0x2b] || sign == [0x2d])
    ensures (if power == [] then [] else [mark] + sign + power) == t[i..ExponentEnd(t, i)]
  {
    var e := ExponentEnd(t, i);
    if e > i {
      var first := if i + 1 < |t| && (t[i + 1] == PLUS || t[i + 1] == MINUS) then i + 2 else i + 1;
      mark, sign, power := t[i], t[i + 1..first], t[first..e];
      DigitRun(t, first);
      assert sign == if first == i + 2 then [t[i + 1]] else [];
      assert t[i..e] == [t[i]] + t[i + 1..first] + t[first..e];
    } else {
      mark, sign, power := 0x65, [], [];
    }
  }

  lemma NumeralFrom(t: Text, i: nat) returns (n: Numeral)
    requires i <= |t| && NumberEnd(t, i) > i
    ensures LegalNumeral(n) && ShowNumeral(n) == t[i..NumberEnd(t, i)]
  {
    var first := if t[i] == MINUS then i + 1 else i;
    var whole := WholeEnd(t, first);
    var frac := FractionEnd(t, whole);
    var e := ExponentEnd(t, frac);
    assert NumberEnd(t, i) == e;
    hide NumberEnd, WholeEnd, FractionEnd, ExponentEnd, AreDigits;
    var w := WholeFrom(t, first);
    var part := PartFrom(t, whole);
    var mark, sign, power := PowerFrom(t, frac);
    n := Numeral(t[i] == MINUS, w, part, mark, sign, power);
    NumeralGlued(t, i, first, whole, frac, e, n);
  }

  lemma NumeralGlued(t: Text, i: nat, first: nat, whole: nat, frac: nat, e: nat, n: Numeral)
    requires i <= first < whole <= frac <= e <= |t| && first == (if t[i] == 0x2d then i + 1 else i) && n.minus == (t[i] == 0x2d)
    requires n.whole == t[first..whole] && Fraction(n) == t[whole..frac] && Exponent(n) == t[frac..e]
    ensures ShowNumeral(n) == t[i..e]
  {
    hide Fraction, Exponent;
    assert (if n.minus then [0x2d] else []) == t[i..first];
    Glued(t, i, first, whole, frac, e);
  }

  lemma Glued(t: Text, i: nat, a: nat, b: nat, c: nat, d: nat)
    requires i <= a <= b <= c <= d <= |t|
    ensures t[i..a] + t[a..b] + t[b..c] + t[c..d] == t[i..d]
  {
    SliceJoin(t, i, a, b);
    SliceJoin(t, i, b, c);
    SliceJoin(t, i, c, d);
  }

  // ----- Values -----

  lemma AtomFrom(t: Text, i: nat) returns (d: Tree)
    requires i < |t| && ScanAtom(t, i).Done?
    ensures Legal(d) && Show(d) == t[i..ScanAtom(t, i).end] && Mean(d) == ScanAtom(t, i).value
  {
    var word := WordFor(t[i]);
    if word.Some? && At(t, i, word.value.spelling) {
      match word.value.value
      case Null => d := Nothing;
      case Bool(b) => d := Truth(b);
      case NotANumber => d := NoNumber;
      case Infinite(negative) =>
        d := Infinity(negative);
        assert [0x2d] + [0x49, 0x6e, 0x66, 0x69, 0x6e, 0x69, 0x74, 0x79] == MINUS_INFINITY_WORD;
        assert [] + INFINITY_WORD == INFINITY_WORD;
    } else {
      var n := NumeralFrom(t, i);
      d := Num(n);
    }
  }

  lemma {:induction false} TreeFrom(t: Text, i: nat) returns (d: Tree)
    requires i <= |t| && ScanValue(t, i).Done?
    ensures Legal(d) && Show(d) == t[i..ScanValue(t, i).end] && Mean(d) == ScanValue(t, i).value
    decreases |t| - i, 0
  {
    hide ScanItems, ScanMembers, ScanString, ScanAtom, SkipWs, FromEntries, Strip, CharsMean;
    if t[i] == QUOTE {
      var chars := CharsFrom(t, i + 1);
      d := String(chars);
      OneLong(t, i);
      SliceJoin(t, i, i + 1, ScanString(t, i + 1).end);
      assert Quoted(chars) == [0x22] + (ShowChars(chars) + [0x22]);
    } else if t[i] == LBRACE {
      d := ObjectFrom(t, i);
    } else if t[i] == LBRACKET {
      d := ArrayFrom(t, i);
    } else {
      hide Legal, Show, Mean;
      d := AtomFrom(t, i);
    }
  }

  /** A bracket, blanks, a bracket. */
  lemma EmptyFrom(t: Text, i: nat, j: nat)
    requires i < j < |t|
    ensures [t[i]] + t[i + 1..j] + [t[j]] == t[i..j + 1]
  {
  }

  lemma {:induction false} ArrayFrom(t: Text, i: nat) returns (d: Tree)
    requires i < |t| && t[i] == LBRACKET && ScanValue(t, i).Done?
    ensures Legal(d) && Show(d) == t[i..ScanValue(t, i).end] && Mean(d) == ScanValue(t, i).value
    decreases |t| - i - 1, 3
  {
    hide ScanItems, SkipWs, AreBlanks;
    var j := SkipWs(t, i + 1);
    BlankRun(t, i + 1);
    if j < |t| && t[j] == RBRACKET {
      d := Array(t[i + 1..j], []);
      EmptyFrom(t, i, j);
      ItemsOfNone();
      assert LegalItems([]);
    } else {
      var items := ItemsFrom(t, i + 1, j);
      d := Array([], items);
      NoBlanks();
      OneLong(t, i);
      SliceJoin(t, i, i + 1, ScanItems(t, j).end);
      hide ShowItems, LegalItems, ItemsMean;
      assert [0x5b] + ShowItems(items) + [0x5d] == [0x5b] + (ShowItems(items) + [0x5d]);
    }
  }

  lemma NoBlanks()
    ensures AreBlanks([])
  {
  }

  lemma {:induction false} ObjectFrom(t: Text, i: nat) returns (d: Tree)
    requires i < |t| && t[i] == LBRACE && ScanValue(t, i).Done?
    ensures Legal(d) && Show(d) == t[i..ScanValue(t, i).end] && Mean(d) == ScanValue(t, i).value
    decreases |t| - i - 1, 3
  {
    var j := SkipWs(t, i + 1);
    BlankRun(t, i + 1);
    NoPairs();
    assert FromEntries([]) == [];
    hide ScanMembers, SkipWs, AreBlanks, FromEntries, Strip;
    if j < |t| && t[j] == RBRACE {
      d := Object(t[i + 1..j], []);
      EmptyFrom(t, i, j);
      assert LegalPairs([]);
    } else {
      var pairs := PairsFrom(t, i + 1, j);
      d := Object([], pairs);
      NoBlanks();
      OneLong(t, i);
      SliceJoin(t, i, i + 1, ScanMembers(t, j).end);
      hide ShowPairs, LegalPairs, PairsMean;
      assert [0x7b] + ShowPairs(pairs) + [0x7d] == [0x7b] + (ShowPairs(pairs) + [0x7d]);
    }
  }

  /** A value with the blanks before it, from `k`, and behind it. */
  lemma {:induction false} PaddedFrom(t: Text, k: nat, i: nat) returns (p: Padded)
    requires k <= i <= |t| && ScanValue(t, i).Done? && AreBlanks(t[k..i])
    ensures LegalPadded(p) && ShowPadded(p) == t[k..SkipWs(t, ScanValue(t, i).end)] && Mean(p.tree) == ScanValue(t, i).value
    decreases |t| - i, 1
  {
    hide ScanValue, SkipWs, Show, Legal, Mean, AreBlanks;
    var d := TreeFrom(t, i);
    var end := ScanValue(t, i).end;
    var n := SkipWs(t, end);
    BlankRun(t, end);
    p := Padded(t[k..i], d, t[end..n]);
    SliceJoin(t, k, i, end);
    SliceJoin(t, k, end, n);
  }

  lemma ItemsCons(p: Padded, rest: seq<Padded>)
    requires LegalPadded(p) && LegalItems(rest)
    ensures LegalItems([p] + rest) && ItemsMean([p] + rest) == [Mean(p.tree)] + ItemsMean(rest)
    ensures rest == [] ==> ShowItems([p] + rest) == ShowPadded(p)
    ensures rest != [] ==> ShowItems([p] + rest) == ShowPadded(p) + [0x2c] + ShowItems(rest)
  {
    assert ([p] + rest)[1..] == rest;
    hide Show, Mean, Legal, LegalPadded, ShowPadded;
  }

  lemma {:induction false} ItemsFrom(t: Text, k: nat, i: nat) returns (items: seq<Padded>)
    requires k <= i <= |t| && ScanItems(t, i).Done? && AreBlanks(t[k..i])
    ensures items != [] && LegalItems(items) && ShowItems(items) + [0x5d] == t[k..ScanItems(t, i).end]
    ensures ItemsMean(items) == ScanItems(t, i).value
    decreases |t| - i, 2
  {
    hide ScanValue, SkipWs, ShowItems, LegalItems, ItemsMean, LegalPadded, ShowPadded, Mean, AreBlanks;
    var p := PaddedFrom(t, k, i);
    var v := ScanValue(t, i);
    var n := SkipWs(t, v.end);
    if t[n] == COMMA {
      var next := SkipWs(t, n + 1);
      BlankRun(t, n + 1);
      var rest := ItemsFrom(t, n + 1, next);
      ItemsCons(p, rest);
      items := [p] + rest;
      GluedItem(t, k, n, ScanItems(t, next).end, ShowItems(rest) + [0x5d]);
      Regrouped(ShowPadded(p), [0x2c], ShowItems(rest), [0x5d]);
    } else {
      LastItem(p);
      items := [p];
      OneLong(t, n);
      SliceJoin(t, k, n, n + 1);
    }
  }

  lemma LastItem(p: Padded)
    requires LegalPadded(p)
    ensures LegalItems([p]) && ItemsMean([p]) == [Mean(p.tree)] && ShowItems([p]) == ShowPadded(p)
  {
    assert LegalItems([]);
    ItemsCons(p, []);
    ItemsOfNone();
    assert [p] + [] == [p] && [Mean(p.tree)] + [] == [Mean(p.tree)];
    hide *;
  }

  lemma GluedItem(t: Text, k: nat, n: nat, end: nat, rest: Text)
    requires k <= n < end <= |t| && t[n] == 0x2c && rest == t[n + 1..end]
    ensures t[k..n] + ([0x2c] + rest) == t[k..end]
  {
    OneLong(t, n);
    SliceJoin(t, n, n + 1, end);
    SliceJoin(t, k, n, end);
  }

  /** A key with its quotes. */
  lemma KeyFrom(t: Text, i: nat) returns (chars: seq<Spelling>)
    requires i < |t| && t[i] == QUOTE && ScanString(t, i + 1).Done?
    ensures AreLegal(chars) && Quoted(chars) == t[i..ScanString(t, i + 1).end] && CharsMean(chars) == ScanString(t, i + 1).value
  {
    hide ScanString, AreLegal, ShowChars, CharsMean;
    chars := CharsFrom(t, i + 1);
    var end := ScanString(t, i + 1).end;
    OneLong(t, i);
    SliceJoin(t, i, i + 1, end);
    Regrouped2([0x22], ShowChars(chars), [0x22]);
  }

  lemma {:induction false} PairFromText(t: Text, k: nat, i: nat) returns (p: Pair)
    requires k <= i <= |t| && ScanMember(t, i).Done? && AreBlanks(t[k..i])
    ensures LegalPair(p) && LegalPadded(p.value) && ShowPair(p) == t[k..SkipWs(t, ScanMember(t, i).end)]
    ensures CharsMean(p.key) == ScanMember(t, i).value.key && Mean(p.value.tree) == ScanMember(t, i).value.value
    decreases |t| - i, 1
  {
    hide ScanValue, ScanString, SkipWs, LegalPadded, ShowPadded, Mean, AreBlanks, AreLegal, CharsMean, Quoted, LegalPair, ShowPair;
    var chars := KeyFrom(t, i);
    var key := ScanString(t, i + 1);
    var c := SkipWs(t, key.end);
    BlankRun(t, key.end);
    var start := SkipWs(t, c + 1);
    BlankRun(t, c + 1);
    var value := PaddedFrom(t, c + 1, start);
    p := Pair(t[k..i], chars, t[key.end..c], value);
    PairGlued(t, k, i, key.end, c, SkipWs(t, ScanValue(t, start).end), p);
  }

  lemma PairGlued(t: Text, k: nat, i: nat, a: nat, c: nat, end: nat, p: Pair)
    requires k <= i <= a <= c < end <= |t| && t[c] == 0x3a
    requires AreBlanks(p.before) && AreLegal(p.key) && AreBlanks(p.between) && LegalPadded(p.value)
    requires p.before == t[k..i] && Quoted(p.key) == t[i..a] && p.between == t[a..c] && ShowPadded(p.value) == t[c + 1..end]
    ensures LegalPair(p) && ShowPair(p) == t[k..end]
  {
    hide Quoted, ShowPadded, LegalPadded, AreBlanks, AreLegal;
    OneLong(t, c);
    SliceJoin(t, c, c + 1, end);
    Glued(t, k, i, a, c, end);
    Regrouped2(t[k..i] + t[i..a] + t[a..c], [0x3a], ShowPadded(p.value));
  }

  lemma Regrouped2(a: Text, b: Text, c: Text)
    ensures a + b + c == a + (b + c)
  {
  }

  lemma PairsCons(p: Pair, rest: seq<Pair>)
    requires LegalPair(p) && LegalPadded(p.value) && LegalPairs(rest)
    ensures LegalPairs([p] + rest)
    ensures PairsMean([p] + rest) == [Entry(CharsMean(p.key), Mean(p.value.tree))] + PairsMean(rest)
    ensures rest == [] ==> ShowPairs([p] + rest) == ShowPair(p)
    ensures rest != [] ==> ShowPairs([p] + rest) == ShowPair(p) + [0x2c] + ShowPairs(rest)
  {
    assert ([p] + rest)[1..] == rest;
    hide Show, Mean, Legal, ShowPair, CharsMean;
  }

  lemma LastPair(p: Pair)
    requires LegalPair(p) && LegalPadded(p.value)
    ensures LegalPairs([p]) && PairsMean([p]) == [Entry(CharsMean(p.key), Mean(p.value.tree))] && ShowPairs([p]) == ShowPair(p)
  {
    assert LegalPairs([]);
    PairsCons(p, []);
    NoPairs();
    var e := Entry(CharsMean(p.key), Mean(p.value.tree));
    assert [p] + [] == [p] && [e] + [] == [e];
    hide *;
  }

  /** The member scan, taken apart. */
  lemma MembersParts(t: Text, i: nat)
    requires i <= |t| && ScanMembers(t, i).Done?
    ensures ScanMember(t, i).Done?
    ensures var m := ScanMember(t, i);
            var n := SkipWs(t, m.end);
            && n < |t| && (t[n] == 0x2c || t[n] == 0x7d)
            && (t[n] == 0x7d ==> ScanMembers(t, i) == Done([m.value], n + 1))
            && (t[n] == 0x2c ==>
                  && ScanMembers(t, SkipWs(t, n + 1)).Done?
                  && ScanMembers(t, i) == Done([m.value] + ScanMembers(t, SkipWs(t, n + 1)).value, ScanMembers(t, SkipWs(t, n + 1)).end))
  {
    hide ScanMember, SkipWs;
  }

  lemma {:induction false} PairsFrom(t: Text, k: nat, i: nat) returns (pairs: seq<Pair>)
    requires k <= i <= |t| && ScanMembers(t, i).Done? && AreBlanks(t[k..i])
    ensures pairs != [] && LegalPairs(pairs) && ShowPairs(pairs) + [0x7d] == t[k..ScanMembers(t, i).end]
    ensures PairsMean(pairs) == Strip(ScanMembers(t, i).value)
    decreases |t| - i, 2
  {
    hide *;
    MembersParts(t, i);
    var p := PairFromText(t, k, i);
    var m := ScanMember(t, i);
    var n := SkipWs(t, m.end);
    if t[n] == 0x2c {
      var next := SkipWs(t, n + 1);
      BlankRun(t, n + 1);
      var rest := PairsFrom(t, n + 1, next);
      PairsJoined(t, k, n, ScanMembers(t, next).end, p, rest, m.value, ScanMembers(t, next).value);
      pairs := [p] + rest;
    } else {
      PairsEnd(t, k, n, p, m.value);
      pairs := [p];
    }
  }

  lemma PairsEnd(t: Text, k: nat, n: nat, p: Pair, m: Member)
    requires k <= n < |t| && t[n] == 0x7d && LegalPair(p) && LegalPadded(p.value) && ShowPair(p) == t[k..n]
    requires m.key == CharsMean(p.key) && m.value == Mean(p.value.tree)
    ensures LegalPairs([p]) && ShowPairs([p]) + [0x7d] == t[k..n + 1]
    ensures PairsMean([p]) == Strip([m])
  {
    LastPair(p);
    StripOf(m, []);
    hide *;
    OneLong(t, n);
    SliceJoin(t, k, n, n + 1);
  }

  lemma PairsJoined(t: Text, k: nat, n: nat, end: nat, p: Pair, rest: seq<Pair>, m: Member, ms: seq<Member>)
    requires k <= n < end <= |t| && t[n] == 0x2c && rest != []
    requires LegalPair(p) && LegalPadded(p.value) && LegalPairs(rest)
    requires m.key == CharsMean(p.key) && m.value == Mean(p.value.tree) && PairsMean(rest) == Strip(ms)
    requires ShowPair(p) == t[k..n] && ShowPairs(rest) + [0x7d] == t[n + 1..end]
    ensures LegalPairs([p] + rest) && ShowPairs([p] + rest) + [0x7d] == t[k..end]
    ensures PairsMean([p] + rest) == Strip([m] + ms)
  {
    PairsCons(p, rest);
    StripOf(m, ms);
    hide ShowPair, ShowPairs, LegalPair, LegalPairs, PairsMean, LegalPadded;
    GluedItem(t, k, n, end, ShowPairs(rest) + [0x7d]);
    Regrouped(ShowPair(p), [0x2c], ShowPairs(rest), [0x7d]);
  }

  // ----- The equivalence -----

  /** The decoder reads a value from a text exactly when the text spells that value. */
  lemma DecodesExactlyWhen(t: Text, v: Value)
    ensures Decode(t) == Some(v) <==> Writes(v, t)
  {
    if Decode(t) == Some(v) {
      var i := SkipWs(t, 0);
      BlankRun(t, 0);
      hide ScanValue, SkipWs, LegalPadded, ShowPadded, Mean, AreBlanks;
      var p := PaddedFrom(t, 0, i);
      assert t[0..|t|] == t;
    }
    if Writes(v, t) {
      hide Decode, LegalPadded, ShowPadded, Mean;
      var p :| LegalPadded(p) && ShowPadded(p) == t && Mean(p.tree) == v;
      DocumentReads(t, p);
    }
  }

  /** At most one value is spelt by a text, and the decoder fails when none is. */
  lemma SpelledOnce(t: Text)
    ensures Decode(t).None? <==> forall v :: !Writes(v, t)
    ensures forall v :: Writes(v, t) <==> Decode(t) == Some(v)
  {
    hide *;
    forall v ensures Writes(v, t) <==> Decode(t) == Some(v) {
      DecodesExactlyWhen(t, v);
    }
    if Decode(t).Some? {
      assert Writes(Decode(t).value, t);
    }
  }
}
