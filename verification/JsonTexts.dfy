/** The decoder reads exactly the texts that spell a value, and reads that value. */
module JsonTexts {
  import opened JsonEncoder
  import opened JsonGrammar
  import opened JsonScanner
  import opened Options

  // ----- From a tree to the scan of its text -----

  lemma AtFirst(t: Text, i: nat, w: Text)
    requires At(t, i, w)
    ensures i + |w| <= |t| && (w != [] ==> t[i] == w[0])
  {
    AtChars(t, i, w);
  }

  lemma AtThree(t: Text, i: nat, a: Text, b: Text, c: Text)
    requires At(t, i, a + b + c)
    ensures At(t, i, a) && At(t, i + |a|, b) && At(t, i + |a| + |b|, c)
  {
    assert a + b + c == a + (b + c);
    AtSplit(t, i, a, b + c);
    AtSplit(t, i + |a|, b, c);
  }

  lemma {:induction false} BlanksRead(t: Text, i: nat, b: Text)
    requires At(t, i, b) && AreBlanks(b)
    requires i + |b| < |t| ==> !IsBlank(t[i + |b|])
    ensures SkipWs(t, i) == i + |b|
    decreases |b|
  {
    AtChars(t, i, b);
    if b != [] {
      assert t[i] == b[0];
      assert b == [b[0]] + b[1..];
      AtSplit(t, i, [b[0]], b[1..]);
      BlanksRead(t, i + 1, b[1..]);
    }
  }

  lemma NibbleReads(c: CodePoint)
    requires IsHex(c)
    ensures HexDigit(c) == Some(Nibble(c))
  {
  }

  lemma UnitIsHex(t: Text, i: nat, x: Spelling)
    requires LegalChar(x) && x.Unit? && At(t, i, ShowChar(x))
    ensures t[i] == BACKSLASH && t[i + 1] == LOWER_U && Hex4(t, i + 2) == Some(ValueOf(x))
  {
    AtChars(t, i, ShowChar(x));
    assert ShowChar(x)[0] == 0x5c && ShowChar(x)[1] == 0x75;
    var d := x.digits;
    assert forall k :: 0 <= k < 4 ==> ShowChar(x)[k + 2] == d[k];
    assert t[i + 2] == d[0] && t[i + 3] == d[1] && t[i + 4] == d[2] && t[i + 5] == d[3];
    NibbleReads(d[0]);
    NibbleReads(d[1]);
    NibbleReads(d[2]);
    NibbleReads(d[3]);
    hide HexDigit, Nibble;
  }

  /** What stands at the start of a spelt character: `\u` only for a unit. */
  lemma SpellingStarts(t: Text, i: nat, x: Spelling)
    requires LegalChar(x) && At(t, i, ShowChar(x))
    ensures i < |t| && t[i] != QUOTE
    ensures UnicodeEscapeAt(t, i) <==> x.Unit?
  {
    AtChars(t, i, ShowChar(x));
    assert t[i] == ShowChar(x)[0];
    if |ShowChar(x)| > 1 {
      assert t[i + 1] == ShowChar(x)[1];
    }
  }

  lemma SpellingReads(t: Text, i: nat, x: Spelling)
    requires LegalChar(x) && At(t, i, ShowChar(x))
    requires x.Unit? && IsHigh(ValueOf(x)) && UnicodeEscapeAt(t, i + 6) ==> Hex4(t, i + 8).Some? && !IsLow(Hex4(t, i + 8).value)
    ensures ScanChar(t, i) == Done(ValueOf(x), i + |ShowChar(x)|)
  {
    AtChars(t, i, ShowChar(x));
    SpellingStarts(t, i, x);
    if x.Unit? {
      UnitIsHex(t, i, x);
      hide Hex4, ValueOf;
    } else {
      assert t[i] == ShowChar(x)[0];
      if x.Escaped? {
        assert t[i + 1] == ShowChar(x)[1];
      }
    }
  }

  lemma PairSpelt(t: Text, i: nat, a: Spelling, b: Spelling)
    requires LegalChar(a) && LegalChar(b) && ArePair(a, b) && At(t, i, ShowChar(a) + ShowChar(b))
    ensures t[i] != QUOTE
    ensures ScanChar(t, i) == Done(0x1_0000 + (ValueOf(a) - 0xd800) * 1024 + (ValueOf(b) - 0xdc00), i + 12)
  {
    PairIsTwelve(a, b);
    hide Hex4, ValueOf, ShowChar, At;
    AtSplit(t, i, ShowChar(a), ShowChar(b));
    AtFirst(t, i, ShowChar(a));
    AtFirst(t, i + 6, ShowChar(b));
    UnitIsHex(t, i, a);
    UnitIsHex(t, i + 6, b);
  }

  lemma LegalTail(chars: seq<Spelling>, n: nat)
    requires AreLegal(chars) && n <= |chars|
    ensures AreLegal(chars[n..])
  {
  }

  lemma {:induction false} CharsRead(t: Text, i: nat, chars: seq<Spelling>)
    requires AreLegal(chars) && At(t, i, ShowChars(chars) + [0x22])
    ensures ScanString(t, i) == Done(CharsMean(chars), i + |ShowChars(chars)| + 1)
    decreases |chars|
  {
    hide ScanChar, ShowChar, ValueOf, Hex4, At, ArePair, AreLegal;
    if chars == [] {
      assert ShowChars(chars) + [0x22] == [0x22];
      AtFirst(t, i, [0x22]);
    } else {
      FirstIsLegal(chars);
      if |chars| >= 2 && ArePair(chars[0], chars[1]) {
        LegalTail(chars, 2);
        TwoRead(t, i, chars);
        CharsRead(t, i + 12, chars[2..]);
      } else {
        LegalTail(chars, 1);
        SingleRead(t, i, chars);
        CharsRead(t, i + |ShowChar(chars[0])|, chars[1..]);
      }
    }
  }

  lemma TwoRead(t: Text, i: nat, chars: seq<Spelling>)
    requires |chars| >= 2 && LegalChar(chars[0]) && LegalChar(chars[1]) && ArePair(chars[0], chars[1])
    requires At(t, i, ShowChars(chars) + [0x22])
    ensures At(t, i + 12, ShowChars(chars[2..]) + [0x22]) && |ShowChars(chars)| == |ShowChars(chars[2..])| + 12
    ensures i < |t| && t[i] != QUOTE
    ensures ScanChar(t, i) == Done(0x1_0000 + (ValueOf(chars[0]) - 0xd800) * 1024 + (ValueOf(chars[1]) - 0xdc00), i + 12)
  {
    hide ScanChar, ShowChar, ValueOf, Hex4, At, ArePair, LegalChar;
    var pair, rest := ShowChar(chars[0]) + ShowChar(chars[1]), ShowChars(chars[2..]) + [0x22];
    PairIsTwelve(chars[0], chars[1]);
    assert chars[1..][1..] == chars[2..];
    assert ShowChars(chars) + [0x22] == pair + rest;
    AtSplit(t, i, pair, rest);
    AtFirst(t, i, pair);
    PairSpelt(t, i, chars[0], chars[1]);
  }

  lemma FirstIsLegal(chars: seq<Spelling>)
    requires AreLegal(chars) && chars != []
    ensures LegalChar(chars[0]) && (|chars| >= 2 ==> LegalChar(chars[1]))
  {
  }

  lemma SingleRead(t: Text, i: nat, chars: seq<Spelling>)
    requires AreLegal(chars) && chars != [] && At(t, i, ShowChars(chars) + [0x22])
    requires LegalChar(chars[0]) && (|chars| >= 2 ==> LegalChar(chars[1]) && !ArePair(chars[0], chars[1]))
    ensures At(t, i + |ShowChar(chars[0])|, ShowChars(chars[1..]) + [0x22])
    ensures i < |t| && t[i] != QUOTE && ScanChar(t, i) == Done(ValueOf(chars[0]), i + |ShowChar(chars[0])|)
  {
    hide ScanChar, ShowChar, ValueOf, Hex4, At, ArePair, AreLegal, LegalChar;
    var rest := ShowChars(chars[1..]) + [0x22];
    assert ShowChars(chars) + [0x22] == ShowChar(chars[0]) + rest;
    AtSplit(t, i, ShowChar(chars[0]), rest);
    SpellingStarts(t, i, chars[0]);
    NoPairFollows(t, i, chars);
    SpellingReads(t, i, chars[0]);
  }

  lemma PairIsTwelve(a: Spelling, b: Spelling)
    requires LegalChar(a) && LegalChar(b) && ArePair(a, b)
    ensures |ShowChar(a) + ShowChar(b)| == 12 && |ShowChar(a)| == 6 == |ShowChar(b)|
  {
    hide ValueOf;
  }

  lemma NoPairFollows(t: Text, i: nat, chars: seq<Spelling>)
    requires AreLegal(chars) && chars != [] && At(t, i, ShowChar(chars[0]))
    requires At(t, i + |ShowChar(chars[0])|, ShowChars(chars[1..]) + [0x22])
    requires |chars| >= 2 ==> !ArePair(chars[0], chars[1])
    ensures chars[0].Unit? && IsHigh(ValueOf(chars[0])) && UnicodeEscapeAt(t, i + 6) ==>
              Hex4(t, i + 8).Some? && !IsLow(Hex4(t, i + 8).value)
  {
    hide Hex4;
    if chars[0].Unit? {
      var rest := chars[1..];
      if rest == [] {
        assert ShowChars(rest) + [0x22] == [0x22];
        AtChars(t, i + 6, [0x22]);
        assert t[i + 6] == [0x22][0];
      } else {
        assert ShowChars(rest) + [0x22] == ShowChar(rest[0]) + (ShowChars(rest[1..]) + [0x22]);
        AtSplit(t, i + 6, ShowChar(rest[0]), ShowChars(rest[1..]) + [0x22]);
        SpellingStarts(t, i + 6, rest[0]);
        if rest[0].Unit? {
          UnitIsHex(t, i + 6, rest[0]);
        }
      }
    }
  }

  // ----- Numbers -----

  lemma {:induction false} DigitsRead(t: Text, i: nat, w: Text)
    requires At(t, i, w) && AreDigits(w)
    requires i + |w| < |t| ==> !IsDigit(t[i + |w|])
    ensures Digits(t, i) == i + |w|
    decreases |w|
  {
    AtChars(t, i, w);
    if w != [] {
      assert t[i] == w[0];
      assert w == [w[0]] + w[1..];
      AtSplit(t, i, [w[0]], w[1..]);
      DigitsRead(t, i + 1, w[1..]);
    }
  }

  lemma ExponentReads(t: Text, i: nat, n: Numeral)
    requires LegalNumeral(n) && At(t, i, Exponent(n)) && Delimited(t, i + |Exponent(n)|)
    ensures ExponentEnd(t, i) == i + |Exponent(n)|
  {
    if n.power == [] {
      AtFirst(t, i, []);
    } else {
      hide Digits, At, Delimited;
      AtThree(t, i, [n.mark], n.sign, n.power);
      AtFirst(t, i, [n.mark]);
      AtFirst(t, i + 1, n.sign);
      AtFirst(t, i + 1 + |n.sign|, n.power);
      PowerReads(t, i + 1 + |n.sign|, n.power);
    }
  }

  lemma PowerReads(t: Text, i: nat, w: Text)
    requires At(t, i, w) && AreDigits(w) && w != [] && Delimited(t, i + |w|)
    ensures Digits(t, i) == i + |w| && IsDigit(t[i])
  {
    DigitsRead(t, i, w);
    AtFirst(t, i, w);
    hide Digits, At;
  }

  lemma FractionReads(t: Text, i: nat, n: Numeral)
    requires LegalNumeral(n) && At(t, i, Fraction(n)) && i + |Fraction(n)| <= |t|
    requires i + |Fraction(n)| < |t| ==> !IsDigit(t[i + |Fraction(n)|]) && (n.part == [] ==> t[i] != DOT)
    ensures FractionEnd(t, i) == i + |Fraction(n)|
    ensures i < |t| ==> !IsDigit(t[i])
  {
    hide Digits, At, Exponent;
    if n.part != [] {
      AtSplit(t, i, [0x2e], n.part);
      AtFirst(t, i, [0x2e]);
      AtFirst(t, i + 1, n.part);
      DigitsTail(t, i + 1, n.part);
    }
  }

  /** What follows the whole part or the fraction of a number. */
  lemma ExponentStarts(t: Text, i: nat, n: Numeral)
    requires LegalNumeral(n) && At(t, i, Exponent(n)) && Delimited(t, i + |Exponent(n)|)
    ensures i <= |t| && (i < |t| ==> !IsDigit(t[i]) && t[i] != DOT)
  {
    AtFirst(t, i, Exponent(n));
    hide At;
  }

  lemma DigitsTail(t: Text, i: nat, w: Text)
    requires At(t, i, w) && AreDigits(w) && w != [] && (i + |w| < |t| ==> !IsDigit(t[i + |w|]))
    ensures Digits(t, i + 1) == i + |w| && IsDigit(t[i])
  {
    DigitsRead(t, i, w);
    AtChars(t, i, w);
    assert t[i] == w[0];
  }

  lemma WholeReads(t: Text, i: nat, w: Text)
    requires w != [] && AreDigits(w) && (w[0] == 0x30 ==> |w| == 1) && At(t, i, w) && (i + |w| < |t| ==> !IsDigit(t[i + |w|]))
    ensures i < |t| && IsDigit(t[i]) && WholeEnd(t, i) == i + |w|
  {
    hide At, Digits;
    AtFirst(t, i, w);
    if w[0] != 0x30 {
      DigitsRead(t, i, w);
    }
  }

  lemma NumeralReads(t: Text, i: nat, n: Numeral)
    requires LegalNumeral(n) && At(t, i, ShowNumeral(n)) && Delimited(t, i + |ShowNumeral(n)|)
    ensures NumberEnd(t, i) == i + |ShowNumeral(n)| > i
    ensures i < |t| && (IsDigit(t[i]) || (t[i] == MINUS && i + 1 < |t| && IsDigit(t[i + 1])))
  {
    hide FractionEnd, ExponentEnd, WholeEnd, Delimited, At, Fraction, Exponent;
    var minus: Text := if n.minus then [0x2d] else [];
    AtThree(t, i, minus + n.whole, Fraction(n), Exponent(n));
    AtSplit(t, i, minus, n.whole);
    AtFirst(t, i, minus);
    var whole := i + |minus|;
    var frac := whole + |n.whole|;
    var power := frac + |Fraction(n)|;
    ExponentStarts(t, power, n);
    ExponentReads(t, power, n);
    NoDot(t, frac, n);
    FractionReads(t, frac, n);
    WholeReads(t, whole, n.whole);
  }

  lemma NoDot(t: Text, i: nat, n: Numeral)
    requires i + |Fraction(n)| <= |t| && (i + |Fraction(n)| < |t| ==> t[i + |Fraction(n)|] != DOT)
    ensures i + |Fraction(n)| < |t| && n.part == [] ==> t[i] != DOT
  {
  }

  // ----- Values -----

  /** The first character of a value is no blank and closes nothing. */
  lemma TreeStarts(d: Tree)
    requires Legal(d)
    ensures |Show(d)| > 0 && !IsBlank(Show(d)[0]) && Show(d)[0] != 0x5d && Show(d)[0] != 0x7d
  {
    match d
    case Num(n) => assert ShowNumeral(n)[0] == if n.minus then 0x2d else n.whole[0];
    case String(chars) => assert Quoted(chars)[0] == 0x22;
    case Infinity(negative) => assert Show(d)[0] == if negative then 0x2d else 0x49;
    case Array(_, _) => assert Show(d)[0] == 0x5b;
    case Object(_, _) => assert Show(d)[0] == 0x7b;
    case _ =>
  }

  lemma NumberReads(t: Text, i: nat, n: Numeral)
    requires LegalNumeral(n) && At(t, i, ShowNumeral(n)) && Delimited(t, i + |ShowNumeral(n)|)
    ensures ScanValue(t, i) == Done(Number(ShowNumeral(n)), i + |ShowNumeral(n)|)
  {
    hide NumberEnd, ShowNumeral, LegalNumeral, Delimited, ScanItems, ScanMembers, ScanString;
    NumeralReads(t, i, n);
    AtIsSlice(t, i, ShowNumeral(n));
    hide At;
    if t[i] == MINUS {
      NoInfinity(t, i);
    }
  }

  lemma AtIsSlice(t: Text, i: nat, w: Text)
    requires At(t, i, w)
    ensures i + |w| <= |t| && t[i..i + |w|] == w
  {
  }

  lemma WordReads(t: Text, i: nat, word: Word)
    requires word.spelling != [] && WordFor(word.spelling[0]) == Some(word) && At(t, i, word.spelling)
    ensures ScanValue(t, i) == Done(word.value, i + |word.spelling|)
  {
    AtFirst(t, i, word.spelling);
    hide NumberEnd, At, ScanItems, ScanMembers, ScanString;
  }

  lemma AtomReads(t: Text, i: nat, d: Tree)
    requires Legal(d) && At(t, i, Show(d)) && Delimited(t, i + |Show(d)|)
    requires !d.String? && !d.Array? && !d.Object?
    ensures ScanValue(t, i) == Done(Mean(d), i + |Show(d)|)
  {
    hide At, ScanValue, Delimited, LegalNumeral, ShowNumeral;
    match d
    case Num(n) => NumberReads(t, i, n);
    case Nothing => WordReads(t, i, Word([0x6e, 0x75, 0x6c, 0x6c], Null));
    case Truth(b) =>
      WordReads(t, i, Word(if b then [0x74, 0x72, 0x75, 0x65] else [0x66, 0x61, 0x6c, 0x73, 0x65], Bool(b)));
    case NoNumber => WordReads(t, i, Word([0x4e, 0x61, 0x4e], NotANumber));
    case Infinity(negative) =>
      assert [0x2d] + [0x49, 0x6e, 0x66, 0x69, 0x6e, 0x69, 0x74, 0x79] == MINUS_INFINITY_WORD;
      assert [] + INFINITY_WORD == INFINITY_WORD;
      WordReads(t, i, Word(Show(d), Infinite(negative)));
  }

  lemma QuotedReads(t: Text, i: nat, chars: seq<Spelling>)
    requires AreLegal(chars) && At(t, i, Quoted(chars))
    ensures i < |t| && t[i] == QUOTE
    ensures ScanString(t, i + 1) == Done(CharsMean(chars), i + |Quoted(chars)|)
  {
    assert Quoted(chars) == [0x22] + (ShowChars(chars) + [0x22]);
    AtSplit(t, i, [0x22], ShowChars(chars) + [0x22]);
    AtChars(t, i, [0x22]);
    assert t[i] == [0x22][0];
    CharsRead(t, i + 1, chars);
  }

  /** Blanks, then a value, then blanks, then something that is neither. */
  lemma PaddedParts(t: Text, i: nat, p: Padded, next: Text)
    requires LegalPadded(p) && At(t, i, ShowPadded(p) + next) && next != [] && next[0] in {0x2c, 0x5d, 0x7d}
    ensures var start := i + |p.before|;
            && SkipWs(t, i) == start && At(t, start, Show(p.tree)) && Delimited(t, start + |Show(p.tree)|)
            && SkipWs(t, start + |Show(p.tree)|) == i + |ShowPadded(p)|
            && At(t, i + |ShowPadded(p)|, next) && i + |ShowPadded(p)| < |t| && t[i + |ShowPadded(p)|] == next[0]
  {
    hide Show, SkipWs, Legal, At, AreBlanks;
    var start := i + |p.before|;
    var after := start + |Show(p.tree)|;
    assert ShowPadded(p) + next == p.before + Show(p.tree) + (p.after + next);
    AtThree(t, i, p.before, Show(p.tree), p.after + next);
    AtSplit(t, after, p.after, next);
    TreeStarts(p.tree);
    AtFirst(t, start, Show(p.tree));
    AtFirst(t, i + |ShowPadded(p)|, next);
    BlanksRead(t, i, p.before);
    BlanksRead(t, after, p.after);
    EndsThere(t, after, p.after, next);
  }

  lemma EndsThere(t: Text, i: nat, after: Text, next: Text)
    requires AreBlanks(after) && At(t, i, after) && At(t, i + |after|, next) && next != [] && next[0] in {0x2c, 0x5d, 0x7d}
    ensures Delimited(t, i)
  {
    AtFirst(t, i, after);
    AtFirst(t, i + |after|, next);
    hide At;
  }

  lemma {:induction false} TreeReads(t: Text, i: nat, d: Tree)
    requires Legal(d) && At(t, i, Show(d)) && Delimited(t, i + |Show(d)|)
    ensures ScanValue(t, i) == Done(Mean(d), i + |Show(d)|)
    decreases d, 1
  {
    if d.Array? {
      ArrayReads(t, i, d);
    } else if d.Object? {
      ObjectReads(t, i, d);
    } else if d.String? {
      hide ScanValue, ScanString, Delimited, CharsMean, At, Quoted;
      QuotedReads(t, i, d.chars);
      StringScans(t, i);
    } else {
      hide *;
      AtomReads(t, i, d);
    }
  }

  lemma {:induction false} ArrayReads(t: Text, i: nat, d: Tree)
    requires Legal(d) && d.Array? && At(t, i, Show(d))
    ensures ScanValue(t, i) == Done(Mean(d), i + |Show(d)|)
    decreases d, 0
  {
    var inner := if d.items == [] then d.blank else ShowItems(d.items);
    hide ScanValue, ScanItems, SkipWs, At, LegalItems, ItemsMean, AreBlanks, ShowItems;
    AtFirst(t, i, [0x5b] + inner + [0x5d]);
    JoinAt(t, i, [0x5b], inner, [0x5d]);
    if d.items == [] {
      EmptyReads(t, i + 1, d.blank, 0x5d);
      ItemsOfNone();
    } else {
      ItemsRead(t, i + 1, d.items);
    }
    ArrayScans(t, i);
  }

  lemma EmptyObjectReads(t: Text, i: nat, blank: Text)
    requires AreBlanks(blank) && At(t, i, [0x7b] + blank + [0x7d])
    ensures ScanValue(t, i) == Done(Dict([]), i + |blank| + 2)
  {
    hide ScanValue, ScanMembers, SkipWs, At, AreBlanks, FromEntries, Strip;
    AtFirst(t, i, [0x7b] + blank + [0x7d]);
    JoinAt(t, i, [0x7b], blank, [0x7d]);
    EmptyReads(t, i + 1, blank, 0x7d);
    ObjectScans(t, i);
  }

  lemma EmptyObjectMeans(d: Tree)
    requires Legal(d) && d.Object? && d.pairs == []
    ensures Mean(d) == Dict([])
  {
    assert PairsMean([]) == [] && FromEntries([]) == [];
  }

  lemma {:induction false} ObjectReads(t: Text, i: nat, d: Tree)
    requires Legal(d) && d.Object? && At(t, i, Show(d))
    ensures ScanValue(t, i) == Done(Mean(d), i + |Show(d)|)
    decreases d, 0
  {
    hide ScanValue, ScanMembers, SkipWs, At, LegalPairs, PairsMean, AreBlanks, ShowPairs, FromEntries, Strip;
    if d.pairs == [] {
      EmptyObjectReads(t, i, d.blank);
      EmptyObjectMeans(d);
    } else {
      var inner := ShowPairs(d.pairs);
      assert |Show(d)| == |inner| + 2;
      AtFirst(t, i, [0x7b] + inner + [0x7d]);
      JoinAt(t, i, [0x7b], inner, [0x7d]);
      PairsRead(t, i + 1, d.pairs);
      ObjectScans(t, i);
    }
  }

  lemma JoinAt(t: Text, i: nat, a: Text, b: Text, c: Text)
    requires At(t, i, a + b + c)
    ensures At(t, i + |a|, b + c)
  {
    assert a + b + c == a + (b + c);
    AtSplit(t, i, a, b + c);
  }

  lemma StringScans(t: Text, i: nat)
    requires i < |t| && t[i] == QUOTE && ScanString(t, i + 1).Done?
    ensures ScanValue(t, i) == Done(Str(ScanString(t, i + 1).value), ScanString(t, i + 1).end)
  {
  }

  lemma ArrayScans(t: Text, i: nat)
    requires i < |t| && t[i] == LBRACKET && SkipWs(t, i + 1) < |t|
    ensures var j := SkipWs(t, i + 1);
            && (t[j] == RBRACKET ==> ScanValue(t, i) == Done(List([]), j + 1))
            && (t[j] != RBRACKET && ScanItems(t, j).Done? ==> ScanValue(t, i) == Done(List(ScanItems(t, j).value), ScanItems(t, j).end))
  {
    hide ScanItems, SkipWs;
  }

  lemma ObjectScans(t: Text, i: nat)
    requires i < |t| && t[i] == LBRACE && SkipWs(t, i + 1) < |t|
    ensures var j := SkipWs(t, i + 1);
            && (t[j] == RBRACE ==> ScanValue(t, i) == Done(Dict([]), j + 1))
            && (t[j] != RBRACE && ScanMembers(t, j).Done? ==>
                  ScanValue(t, i) == Done(Dict(FromEntries(Strip(ScanMembers(t, j).value))), ScanMembers(t, j).end))
  {
    hide ScanMembers, SkipWs, FromEntries, Strip;
  }

  lemma EmptyReads(t: Text, i: nat, blank: Text, close: CodePoint)
    requires AreBlanks(blank) && At(t, i, blank + [close]) && (close == 0x5d || close == 0x7d)
    ensures SkipWs(t, i) == i + |blank| < |t| && t[i + |blank|] == close
  {
    AtSplit(t, i, blank, [close]);
    AtChars(t, i + |blank|, [close]);
    assert t[i + |blank|] == [close][0];
    BlanksRead(t, i, blank);
  }

  /** One turn of the item scan. */
  lemma ItemsTurn(t: Text, i: nat)
    requires i <= |t| && ScanValue(t, i).Done? && SkipWs(t, ScanValue(t, i).end) < |t|
    ensures var v, n := ScanValue(t, i), SkipWs(t, ScanValue(t, i).end);
            && (t[n] == RBRACKET ==> ScanItems(t, i) == Done([v.value], n + 1))
            && (t[n] == COMMA && ScanItems(t, SkipWs(t, n + 1)).Done? ==>
                  ScanItems(t, i) == Done([v.value] + ScanItems(t, SkipWs(t, n + 1)).value, ScanItems(t, SkipWs(t, n + 1)).end))
  {
    hide ScanValue, SkipWs;
  }

  /** What follows the first of some items: the rest, or the end. */
  function AfterItem(items: seq<Padded>): Text
    requires items != []
  {
    if |items| == 1 then [0x5d] else [0x2c] + (ShowItems(items[1..]) + [0x5d])
  }

  lemma Regrouped(a: Text, b: Text, c: Text, d: Text)
    ensures a + b + c + d == a + (b + (c + d))
  {
  }

  lemma ItemsSplit(items: seq<Padded>)
    requires items != []
    ensures ShowItems(items) + [0x5d] == ShowPadded(items[0]) + AfterItem(items)
    ensures |ShowItems(items)| + 1 == |ShowPadded(items[0])| + |AfterItem(items)|
  {
    hide Show, ShowPadded;
    if |items| > 1 {
      Regrouped(ShowPadded(items[0]), [0x2c], ShowItems(items[1..]), [0x5d]);
    }
  }

  lemma AfterItemIs(items: seq<Padded>)
    requires items != []
    ensures AfterItem(items) != [] && AfterItem(items)[0] == (if |items| == 1 then 0x5d else 0x2c)
    ensures |items| == 1 ==> |AfterItem(items)| == 1
    ensures |items| > 1 ==> AfterItem(items) == [0x2c] + (ShowItems(items[1..]) + [0x5d])
                            && |AfterItem(items)| == |ShowItems(items[1..])| + 2
  {
    hide ShowItems;
  }

  lemma ItemsAre(items: seq<Padded>)
    requires items != [] && LegalItems(items)
    ensures LegalPadded(items[0]) && Legal(items[0].tree) && LegalItems(items[1..])
    ensures ItemsMean(items) == [Mean(items[0].tree)] + ItemsMean(items[1..])
    ensures |items| == 1 ==> ItemsMean(items) == [Mean(items[0].tree)]
  {
    assert LegalPadded(items[0]);
    hide Mean, Legal;
    if |items| == 1 {
      assert items[1..] == [];
    }
  }

  lemma {:induction false} ItemsRead(t: Text, i: nat, items: seq<Padded>)
    requires items != [] && LegalItems(items) && At(t, i, ShowItems(items) + [0x5d])
    ensures SkipWs(t, i) < |t| && t[SkipWs(t, i)] != RBRACKET
    ensures ScanItems(t, SkipWs(t, i)) == Done(ItemsMean(items), i + |ShowItems(items)| + 1)
    decreases items
  {
    hide ScanValue, ScanItems, SkipWs, Delimited, Show, At, ItemsMean, ShowItems, LegalItems, ShowPadded, Mean, Legal, LegalPadded,
         AreBlanks, IsBlank, AfterItem;
    ItemsSplit(items);
    ItemsAre(items);
    AfterItemIs(items);
    var p, next := items[0], AfterItem(items);
    PaddedParts(t, i, p, next);
    var start := i + |p.before|;
    TreeReads(t, start, p.tree);
    TreeStarts(p.tree);
    AtFirst(t, start, Show(p.tree));
    ItemsTurn(t, start);
    if |items| > 1 {
      RestIsAt(t, i + |ShowPadded(p)|, next, [0x2c], ShowItems(items[1..]) + [0x5d]);
      ItemsRead(t, i + |ShowPadded(p)| + 1, items[1..]);
    }
  }

  lemma RestIsAt(t: Text, i: nat, next: Text, comma: Text, rest: Text)
    requires At(t, i, next) && next == comma + rest
    ensures At(t, i + |comma|, rest)
  {
    AtSplit(t, i, comma, rest);
  }

  lemma ItemsOfNone()
    ensures ItemsMean([]) == []
  {
  }

  lemma PairParts(t: Text, i: nat, p: Pair, next: Text)
    requires LegalPair(p) && At(t, i, ShowPair(p) + next)
    ensures var key := i + |p.before|;
            var colon := key + |Quoted(p.key)| + |p.between|;
            && SkipWs(t, i) == key && At(t, key, Quoted(p.key)) && SkipWs(t, key + |Quoted(p.key)|) == colon < |t|
            && t[colon] == COLON && At(t, colon + 1, ShowPadded(p.value) + next)
            && colon + 1 + |ShowPadded(p.value)| == i + |ShowPair(p)|
  {
    hide ShowPadded, SkipWs, LegalPadded, At, AreBlanks, ShowChars;
    var key := i + |p.before|;
    var colon := key + |Quoted(p.key)| + |p.between|;
    var value := ShowPadded(p.value) + next;
    assert ShowPair(p) + next == p.before + Quoted(p.key) + (p.between + [0x3a] + value);
    AtThree(t, i, p.before, Quoted(p.key), p.between + [0x3a] + value);
    AtThree(t, key + |Quoted(p.key)|, p.between, [0x3a], value);
    AtFirst(t, key, Quoted(p.key));
    AtFirst(t, colon, [0x3a]);
    BlanksRead(t, i, p.before);
    BlanksRead(t, key + |Quoted(p.key)|, p.between);
  }

  function AfterPair(pairs: seq<Pair>): Text
    requires pairs != []
  {
    if |pairs| == 1 then [0x7d] else [0x2c] + (ShowPairs(pairs[1..]) + [0x7d])
  }

  lemma PairsSplit(pairs: seq<Pair>)
    requires pairs != []
    ensures ShowPairs(pairs) + [0x7d] == ShowPair(pairs[0]) + AfterPair(pairs)
    ensures |ShowPairs(pairs)| + 1 == |ShowPair(pairs[0])| + |AfterPair(pairs)|
  {
    hide ShowPair;
    if |pairs| > 1 {
      Regrouped(ShowPair(pairs[0]), [0x2c], ShowPairs(pairs[1..]), [0x7d]);
    }
  }

  lemma AfterPairIs(pairs: seq<Pair>)
    requires pairs != []
    ensures AfterPair(pairs) != [] && AfterPair(pairs)[0] == (if |pairs| == 1 then 0x7d else 0x2c)
    ensures |pairs| == 1 ==> |AfterPair(pairs)| == 1
    ensures |pairs| > 1 ==> AfterPair(pairs) == [0x2c] + (ShowPairs(pairs[1..]) + [0x7d])
                            && |AfterPair(pairs)| == |ShowPairs(pairs[1..])| + 2
  {
    hide ShowPairs;
  }

  lemma PairsAre(pairs: seq<Pair>)
    requires pairs != [] && LegalPairs(pairs)
    ensures LegalPair(pairs[0]) && LegalPadded(pairs[0].value) && LegalPairs(pairs[1..])
    ensures PairsMean(pairs) == [Entry(CharsMean(pairs[0].key), Mean(pairs[0].value.tree))] + PairsMean(pairs[1..])
    ensures |pairs| == 1 ==> PairsMean(pairs) == [Entry(CharsMean(pairs[0].key), Mean(pairs[0].value.tree))]
  {
    assert LegalPair(pairs[0]);
    hide Mean, Legal, CharsMean;
    if |pairs| == 1 {
      assert pairs[1..] == [];
    }
  }

  /** One turn of the member scan. */
  lemma MembersTurn(t: Text, i: nat)
    requires i <= |t| && ScanMember(t, i).Done? && SkipWs(t, ScanMember(t, i).end) < |t|
    ensures var m, n := ScanMember(t, i), SkipWs(t, ScanMember(t, i).end);
            && (t[n] == RBRACE ==> ScanMembers(t, i) == Done([m.value], n + 1))
            && (t[n] == COMMA && ScanMembers(t, SkipWs(t, n + 1)).Done? ==>
                  ScanMembers(t, i) == Done([m.value] + ScanMembers(t, SkipWs(t, n + 1)).value, ScanMembers(t, SkipWs(t, n + 1)).end))
  {
    hide ScanMember, SkipWs;
  }

  lemma MemberTurn(t: Text, i: nat)
    requires i < |t| && t[i] == QUOTE && ScanString(t, i + 1).Done?
    requires var c := SkipWs(t, ScanString(t, i + 1).end);
             c < |t| && t[c] == COLON && ScanValue(t, SkipWs(t, c + 1)).Done?
    ensures var key := ScanString(t, i + 1);
            var start := SkipWs(t, SkipWs(t, key.end) + 1);
            ScanMember(t, i) == Done(Member(key.value, ScanValue(t, start).value, start, ScanValue(t, start).end), ScanValue(t, start).end)
  {
    hide ScanString, SkipWs, ScanValue;
  }

  lemma StripOf(m: Member, ms: seq<Member>)
    ensures Strip([m] + ms) == [Entry(m.key, m.value)] + Strip(ms)
    ensures Strip([m]) == [Entry(m.key, m.value)]
  {
  }

  lemma {:induction false} PairRead(t: Text, i: nat, p: Pair, next: Text)
    requires LegalPair(p) && LegalPadded(p.value) && At(t, i, ShowPair(p) + next)
    requires next != [] && next[0] in {0x2c, 0x7d}
    ensures var key := SkipWs(t, i);
            && key < |t| && t[key] == QUOTE && ScanMember(t, key).Done?
            && ScanMember(t, key).value.key == CharsMean(p.key) && ScanMember(t, key).value.value == Mean(p.value.tree)
            && SkipWs(t, ScanMember(t, key).end) == i + |ShowPair(p)| < |t| && t[i + |ShowPair(p)|] == next[0]
            && At(t, i + |ShowPair(p)|, next)
    decreases p
  {
    hide ScanValue, ScanString, ScanMember, SkipWs, Delimited, Show, ShowPair, ShowPadded, CharsMean, Quoted, At, LegalPair, LegalPadded, AreLegal;
    PairParts(t, i, p, next);
    var key := i + |p.before|;
    KeyIsLegal(p);
    QuotedReads(t, key, p.key);
    var colon := key + |Quoted(p.key)| + |p.between|;
    PaddedParts(t, colon + 1, p.value, next);
    TreeReads(t, colon + 1 + |p.value.before|, p.value.tree);
    MemberTurn(t, key);
  }

  lemma KeyIsLegal(p: Pair)
    requires LegalPair(p)
    ensures AreLegal(p.key) && LegalPadded(p.value) && Legal(p.value.tree)
  {
  }

  lemma {:induction false} PairsRead(t: Text, i: nat, pairs: seq<Pair>)
    requires pairs != [] && LegalPairs(pairs) && At(t, i, ShowPairs(pairs) + [0x7d])
    ensures SkipWs(t, i) < |t| && t[SkipWs(t, i)] != RBRACE
    ensures var ms := ScanMembers(t, SkipWs(t, i));
            ms.Done? && Strip(ms.value) == PairsMean(pairs) && ms.end == i + |ShowPairs(pairs)| + 1
    decreases pairs
  {
    hide ScanMember, ScanMembers, SkipWs, ShowPair, ShowPairs, CharsMean, At, LegalPair, LegalPadded, LegalPairs, PairsMean, Strip, Mean,
         AreBlanks, Legal, AfterPair;
    PairsSplit(pairs);
    PairsAre(pairs);
    AfterPairIs(pairs);
    var p, next := pairs[0], AfterPair(pairs);
    PairRead(t, i, p, next);
    var key := SkipWs(t, i);
    var m := ScanMember(t, key).value;
    MembersTurn(t, key);
    if |pairs| == 1 {
      StripOf(m, []);
    } else {
      RestIsAt(t, i + |ShowPair(p)|, next, [0x2c], ShowPairs(pairs[1..]) + [0x7d]);
      PairsRead(t, i + |ShowPair(p)| + 1, pairs[1..]);
      StripOf(m, ScanMembers(t, SkipWs(t, i + |ShowPair(p)| + 1)).value);
    }
  }

  lemma NoPairs()
    ensures PairsMean([]) == []
  {
  }

  /** A whole document. */
  lemma DocumentReads(t: Text, p: Padded)
    requires LegalPadded(p) && ShowPadded(p) == t
    ensures Decode(t) == Some(Mean(p.tree))
  {
    hide Show, SkipWs, At, ScanValue, AreBlanks, Legal, Mean;
    assert At(t, 0, p.before + Show(p.tree) + p.after) by {
      WholeIsAt(t);
    }
    AtThree(t, 0, p.before, Show(p.tree), p.after);
    var start := |p.before|;
    var after := start + |Show(p.tree)|;
    TreeStarts(p.tree);
    AtFirst(t, start, Show(p.tree));
    BlanksRead(t, 0, p.before);
    BlanksRead(t, after, p.after);
    BlankDelimits(t, after, p.after);
    TreeReads(t, start, p.tree);
  }

  lemma WholeIsAt(t: Text)
    ensures At(t, 0, t)
  {
  }

  lemma BlankDelimits(t: Text, i: nat, b: Text)
    requires At(t, i, b) && AreBlanks(b) && i + |b| == |t|
    ensures Delimited(t, i)
  {
    AtFirst(t, i, b);
    hide At;
  }
}
