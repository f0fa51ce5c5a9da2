/** What a JSON text is, said without a scanner: the texts that spell a value are those that its
    concrete syntax trees show. Section numbers are those of RFC 8259; beyond it the decoder takes
    `NaN`, `Infinity` and `-Infinity`, and code points that are lone surrogates. */
module JsonGrammar {
  import opened JsonScanner

  // ----- Section 2: blanks -----

  predicate IsBlank(c: int) {
    c == 0x20 || c == 0x09 || c == 0x0a || c == 0x0d
  }

  predicate AreBlanks(t: Text) {
    forall i :: 0 <= i < |t| ==> IsBlank(t[i])
  }

  // ----- Section 7: strings -----

  /** A character as itself, behind a backslash, or by its code unit. */
  datatype Spelling = Plain(c: CodePoint) | Escaped(letter: CodePoint) | Unit(digits: Text)

  /** The eight letters that may stand behind a backslash, and what each means. */
  function Meant(letter: int): int {
    if letter == 0x62 then 0x08
    else if letter == 0x66 then 0x0c
    else if letter == 0x6e then 0x0a
    else if letter == 0x72 then 0x0d
    else if letter == 0x74 then 0x09
    else letter
  }

  function Nibble(c: int): int {
    if c <= 0x39 then c - 0x30 else if c <= 0x46 then c - 0x41 + 10 else c - 0x61 + 10
  }

  predicate IsHex(c: int) {
    0x30 <= c <= 0x39 || 0x41 <= c <= 0x46 || 0x61 <= c <= 0x66
  }

  predicate LegalChar(x: Spelling) {
    match x
    case Plain(c) => c >= 0x20 && c != 0x22 && c != 0x5c
    case Escaped(letter) => letter in {0x22, 0x5c, 0x2f, 0x62, 0x66, 0x6e, 0x72, 0x74}
    case Unit(d) => |d| == 4 && IsHex(d[0]) && IsHex(d[1]) && IsHex(d[2]) && IsHex(d[3])
  }

  function ShowChar(x: Spelling): Text {
    match x
    case Plain(c) => [c]
    case Escaped(letter) => [0x5c, letter]
    case Unit(digits) => [0x5c, 0x75] + digits
  }

  function ValueOf(x: Spelling): (c: CodePoint)
    requires LegalChar(x)
  {
    match x
    case Plain(c) => c
    case Escaped(letter) => Meant(letter)
    case Unit(d) => Nibble(d[0]) * 4096 + Nibble(d[1]) * 256 + Nibble(d[2]) * 16 + Nibble(d[3])
  }

  predicate AreLegal(chars: seq<Spelling>) {
    forall i :: 0 <= i < |chars| ==> LegalChar(chars[i])
  }

  function ShowChars(chars: seq<Spelling>): Text {
    if chars == [] then [] else ShowChar(chars[0]) + ShowChars(chars[1..])
  }

  /** Two code units that are a surrogate pair mean one code point. */
  predicate ArePair(a: Spelling, b: Spelling)
    requires LegalChar(a) && LegalChar(b)
  {
    a.Unit? && b.Unit? && 0xd800 <= ValueOf(a) < 0xdc00 && 0xdc00 <= ValueOf(b) < 0xe000
  }

  function CharsMean(chars: seq<Spelling>): Text
    requires AreLegal(chars)
  {
    if chars == [] then []
    else if |chars| >= 2 && ArePair(chars[0], chars[1]) then
      [0x1_0000 + (ValueOf(chars[0]) - 0xd800) * 1024 + (ValueOf(chars[1]) - 0xdc00)] + CharsMean(chars[2..])
    else [ValueOf(chars[0])] + CharsMean(chars[1..])
  }

  function Quoted(chars: seq<Spelling>): Text {
    [0x22] + ShowChars(chars) + [0x22]
  }

  // ----- Section 6: numbers -----

  predicate AreDigits(t: Text) {
    forall i :: 0 <= i < |t| ==> 0x30 <= t[i] <= 0x39
  }

  /** `part` is empty for a number without a fraction, `power` for one without an exponent; `mark`
      is the exponent's letter and `sign` its sign, if it has one. */
  datatype Numeral = Numeral(minus: bool, whole: Text, part: Text, mark: CodePoint, sign: Text, power: Text)

  predicate LegalNumeral(n: Numeral) {
    && n.whole != [] && AreDigits(n.whole) && (n.whole[0] == 0x30 ==> |n.whole| == 1)
    && AreDigits(n.part) && AreDigits(n.power)
    && (n.mark == 0x65 || n.mark == 0x45) && (n.sign == [] || n.sign == [0x2b] || n.sign == [0x2d])
  }

  function Fraction(n: Numeral): Text {
    if n.part == [] then [] else [0x2e] + n.part
  }

  function Exponent(n: Numeral): Text {
    if n.power == [] then [] else [n.mark] + n.sign + n.power
  }

  function ShowNumeral(n: Numeral): Text {
    (if n.minus then [0x2d] else []) + n.whole + Fraction(n) + Exponent(n)
  }

  // ----- Sections 3 to 5: values, objects, arrays -----

  datatype Tree =
    | Nothing
    | Truth(b: bool)
    | NoNumber
    | Infinity(negative: bool)
    | Num(n: Numeral)
    | String(chars: seq<Spelling>)
    | Array(blank: Text, items: seq<Padded>)        // `blank` is what an empty one holds
    | Object(blank: Text, pairs: seq<Pair>)

  datatype Padded = Padded(before: Text, tree: Tree, after: Text)

  datatype Pair = Pair(before: Text, key: seq<Spelling>, between: Text, value: Padded)

  predicate Legal(d: Tree)
    decreases d
  {
    match d
    case Num(n) => LegalNumeral(n)
    case String(chars) => AreLegal(chars)
    case Array(blank, items) => AreBlanks(blank) && LegalItems(items)
    case Object(blank, pairs) => AreBlanks(blank) && LegalPairs(pairs)
    case _ => true
  }

  predicate LegalItems(items: seq<Padded>)
    decreases items, 0
  {
    forall i :: 0 <= i < |items| ==> LegalPadded(items[i])
  }

  predicate LegalPairs(pairs: seq<Pair>)
    decreases pairs, 0
  {
    forall i :: 0 <= i < |pairs| ==> LegalPair(pairs[i])
  }

  predicate LegalPadded(p: Padded)
    decreases p
  {
    AreBlanks(p.before) && Legal(p.tree) && AreBlanks(p.after)
  }

  predicate LegalPair(p: Pair)
    decreases p
  {
    AreBlanks(p.before) && AreLegal(p.key) && AreBlanks(p.between) && LegalPadded(p.value)
  }

  function Show(d: Tree): Text
    decreases d
  {
    match d
    case Nothing => [0x6e, 0x75, 0x6c, 0x6c]
    case Truth(b) => if b then [0x74, 0x72, 0x75, 0x65] else [0x66, 0x61, 0x6c, 0x73, 0x65]
    case NoNumber => [0x4e, 0x61, 0x4e]
    case Infinity(negative) => (if negative then [0x2d] else []) + [0x49, 0x6e, 0x66, 0x69, 0x6e, 0x69, 0x74, 0x79]
    case Num(n) => ShowNumeral(n)
    case String(chars) => Quoted(chars)
    case Array(blank, items) => [0x5b] + (if items == [] then blank else ShowItems(items)) + [0x5d]
    case Object(blank, pairs) => [0x7b] + (if pairs == [] then blank else ShowPairs(pairs)) + [0x7d]
  }

  function ShowPadded(p: Padded): Text
    decreases p
  {
    p.before + Show(p.tree) + p.after
  }

  function ShowItems(items: seq<Padded>): Text
    requires items != []
    decreases items
  {
    if |items| == 1 then ShowPadded(items[0]) else ShowPadded(items[0]) + [0x2c] + ShowItems(items[1..])
  }

  function ShowPair(p: Pair): Text
    decreases p
  {
    p.before + Quoted(p.key) + p.between + [0x3a] + ShowPadded(p.value)
  }

  function ShowPairs(pairs: seq<Pair>): Text
    requires pairs != []
    decreases pairs
  {
    if |pairs| == 1 then ShowPair(pairs[0]) else ShowPair(pairs[0]) + [0x2c] + ShowPairs(pairs[1..])
  }

  function Mean(d: Tree): Value
    requires Legal(d)
    decreases d
  {
    match d
    case Nothing => Null
    case Truth(b) => Bool(b)
    case NoNumber => NotANumber
    case Infinity(negative) => Infinite(negative)
    case Num(n) => Number(ShowNumeral(n))
    case String(chars) => Str(CharsMean(chars))
    case Array(_, items) => List(ItemsMean(items))
    case Object(_, pairs) => Dict(FromEntries(PairsMean(pairs)))
  }

  function ItemsMean(items: seq<Padded>): (r: seq<Value>)
    requires LegalItems(items)
    decreases items
  {
    if items == [] then []
    else
      assert LegalPadded(items[0]);
      [Mean(items[0].tree)] + ItemsMean(items[1..])
  }

  function PairsMean(pairs: seq<Pair>): (r: seq<Entry>)
    requires LegalPairs(pairs)
    decreases pairs
  {
    if pairs == [] then []
    else
      assert LegalPair(pairs[0]) && LegalPadded(pairs[0].value);
      [Entry(CharsMean(pairs[0].key), Mean(pairs[0].value.tree))] + PairsMean(pairs[1..])
  }

  /** The text is the value's own, with no blank around it. */
  ghost predicate Spells(v: Value, t: Text) {
    exists d :: Legal(d) && Show(d) == t && Mean(d) == v
  }

  /** The text spells the value. */
  ghost predicate Writes(v: Value, t: Text) {
    exists p :: LegalPadded(p) && ShowPadded(p) == t && Mean(p.tree) == v
  }
}
