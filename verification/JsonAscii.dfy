/** `json.dumps` with `ensure_ascii`: offsets into the text are offsets into its bytes. */
module JsonAscii {
  import opened JsonEncoder
  import opened JsonGrammar
  import opened JsonScanner
  import opened JsonTrees
  import opened Options

  predicate IsAscii(t: Text) {
    forall i :: 0 <= i < |t| ==> 0x20 <= t[i] <= 0x7e
  }

  lemma AsciiJoin(a: Text, b: Text)
    requires IsAscii(a) && IsAscii(b)
    ensures IsAscii(a + b)
  {
  }

  lemma {:induction false} CharsAreAscii(s: Text)
    ensures IsAscii(EncodeChars(s))
    decreases |s|
  {
    if s != [] {
      assert IsAscii(EncodeChar(s[0]));
      CharsAreAscii(s[1..]);
      hide EncodeChar;
      AsciiJoin(EncodeChar(s[0]), EncodeChars(s[1..]));
    }
  }

  lemma NumeralIsAscii(n: Numeral)
    requires LegalNumeral(n)
    ensures IsAscii(ShowNumeral(n))
  {
    var sign := if n.minus then [0x2d] else [];
    assert IsAscii(Fraction(n)) && IsAscii(Exponent(n));
    hide Fraction, Exponent;
    AsciiJoin(sign, n.whole);
    AsciiJoin(sign + n.whole, Fraction(n));
    AsciiJoin(sign + n.whole + Fraction(n), Exponent(n));
  }

  lemma LexemeIsAscii(s: Text)
    requires IsLexeme(s)
    ensures IsAscii(s)
  {
    var n := NumeralFrom(s, 0);
    NumeralIsAscii(n);
    assert s[0..|s|] == s;
  }

  lemma StringIsAscii(s: Text)
    ensures IsAscii(EncodeString(s))
  {
    CharsAreAscii(s);
    hide EncodeChars;
    AsciiJoin([QUOTE], EncodeChars(s));
    AsciiJoin([QUOTE] + EncodeChars(s), [QUOTE]);
  }

  /** Whatever the value holds, what is written is printable ASCII. */
  lemma {:induction false} EncodingIsAscii(v: Value)
    requires Proper(v)
    ensures IsAscii(Encode(v))
    decreases v, 1
  {
    match v
    case Number(lexeme) => LexemeIsAscii(lexeme);
    case Str(s) =>
      StringIsAscii(s);
      hide EncodeString;
    case List(items) =>
      ItemsAreAscii(items);
      hide EncodeItems;
      AsciiJoin([LBRACKET], EncodeItems(items));
      AsciiJoin([LBRACKET] + EncodeItems(items), [RBRACKET]);
    case Dict(entries) =>
      EntriesAreAscii(entries);
      hide EncodeEntries;
      AsciiJoin([LBRACE], EncodeEntries(entries));
      AsciiJoin([LBRACE] + EncodeEntries(entries), [RBRACE]);
    case _ =>
  }

  lemma {:induction false} ItemsAreAscii(items: seq<Value>)
    requires forall x :: x in items ==> Proper(x)
    ensures IsAscii(EncodeItems(items))
    decreases items, 0
  {
    hide Encode, Proper;
    if items != [] {
      assert items[0] in items && forall x :: x in items[1..] ==> x in items;
      EncodingIsAscii(items[0]);
      ItemsAreAscii(items[1..]);
      AsciiJoin(Encode(items[0]), [COMMA, SPACE]);
      AsciiJoin(Encode(items[0]) + [COMMA, SPACE], EncodeItems(items[1..]));
    }
  }

  lemma {:induction false} EntriesAreAscii(entries: seq<Entry>)
    requires forall e :: e in entries ==> Proper(e.value)
    ensures IsAscii(EncodeEntries(entries))
    decreases entries, 0
  {
    hide Encode, Proper, EncodeString;
    if entries != [] {
      var e := entries[0];
      assert e in entries && forall x :: x in entries[1..] ==> x in entries;
      StringIsAscii(e.key);
      EncodingIsAscii(e.value);
      AsciiJoin(EncodeString(e.key), [COLON, SPACE]);
      AsciiJoin(EncodeString(e.key) + [COLON, SPACE], Encode(e.value));
      EntriesAreAscii(entries[1..]);
      AsciiJoin(EncodeEntry(e), [COMMA, SPACE]);
      hide EncodeEntry;
      AsciiJoin(EncodeEntry(e) + [COMMA, SPACE], EncodeEntries(entries[1..]));
    }
  }
}
