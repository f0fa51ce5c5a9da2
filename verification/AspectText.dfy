/** Which texts name an aspect ratio, and how far apart two ratios are. */
module AspectText {
  import opened AspectRatio
  import opened Options
  import opened Strings

  /** One to six digits. */
  predicate IsFigure(x: string) {
    1 <= |x| <= 6 && AllDigits(x)
  }

  lemma FigureIs(x: string, rest: string)
    requires IsFigure(x) && (|x| == 6 || rest == "" || !IsDigit(rest[0]))
    ensures TakeNumber(x + rest) == Some((Number(x), rest))
  {
    RunOf(x, rest, 6);
    assert (x + rest)[..|x|] == x && (x + rest)[|x|..] == rest;
    hide Number, DigitRun;
  }

  lemma {:induction false} RunStops(s: string, limit: nat)
    ensures var n := DigitRun(s, limit); n == limit || n == |s| || !IsDigit(s[n])
    decreases |s|
  {
    if limit > 0 && s != "" && IsDigit(s[0]) {
      RunStops(s[1..], limit - 1);
    }
  }

  lemma FigureWhole(s: string) returns (x: string, rest: string)
    requires TakeNumber(s).Some?
    ensures IsFigure(x) && s == x + rest && TakeNumber(s).value == (Number(x), rest)
    ensures |x| == 6 || rest == "" || !IsDigit(rest[0])
  {
    var n := DigitRun(s, 6);
    RunStops(s, 6);
    x, rest := s[..n], s[n..];
    hide Number, DigitRun;
  }

  lemma SkipOf(blank: string, rest: string)
    requires AllSpace(blank) && (rest == "" || !IsSpace(rest[0]))
    ensures SkipSpace(blank + rest) == rest
    decreases |blank|
  {
    if blank == "" {
      assert blank + rest == rest;
    } else {
      assert (blank + rest)[1..] == blank[1..] + rest;
      SkipOf(blank[1..], rest);
    }
  }

  lemma SkipWhole(s: string) returns (blank: string)
    ensures AllSpace(blank) && s == blank + SkipSpace(s)
  {
    SkipIs(s);
    blank := s[..|s| - |SkipSpace(s)|];
    hide SkipSpace;
  }

  // ----- Labels -----

  /** A label in parentheses, or nothing in them. */
  predicate IsInner(m: string, front: string, inner: string, back: string, note: Option<string>) {
    && AllSpace(front) && AllSpace(back) && (inner == "" || IsTrimmed(inner)) && m == "(" + front + inner + back + ")"
    && note == if inner == "" then None else Some(inner)
  }

  predicate IsBracketed(m: string) {
    |m| >= 2 && m[0] == '(' && m[|m| - 1] == ')'
  }

  /** What follows the figures: white space around nothing, a label, or one in parentheses. */
  ghost predicate IsLabelled(rest: string, front: string, m: string, back: string, note: Option<string>) {
    && AllSpace(front) && AllSpace(back) && (m == "" || IsTrimmed(m)) && rest == front + m + back
    && if IsBracketed(m) then exists f, inner, b :: IsInner(m, f, inner, b, note) else note == if m == "" then None else Some(m)
  }

  lemma InnerOf(m: string, note: Option<string>)
    requires IsBracketed(m)
    ensures NoteOf(m) == note <==> exists f, inner, b :: IsInner(m, f, inner, b, note)
  {
    var within := m[1..|m| - 1];
    assert m == "(" + within + ")";
    hide Strip;
    if NoteOf(m) == note {
      var f, b := StripIs(within);
      assert IsInner(m, f, Strip(within), b, note);
    }
    if f, inner, b :| IsInner(m, f, inner, b, note) {
      assert within == f + inner + b;
      StripOf(f, inner, b);
    }
  }

  lemma NotesExactly(rest: string, note: Option<string>)
    ensures NoteOf(Strip(rest)) == note <==> exists front, m, back :: IsLabelled(rest, front, m, back, note)
  {
    hide Strip, IsTrimmed;
    if NoteOf(Strip(rest)) == note {
      var front, back := StripIs(rest);
      if IsBracketed(Strip(rest)) {
        InnerOf(Strip(rest), note);
      }
      assert IsLabelled(rest, front, Strip(rest), back, note);
    }
    if front, m, back :| IsLabelled(rest, front, m, back, note) {
      StripOf(front, m, back);
      if IsBracketed(m) {
        InnerOf(m, note);
      }
    }
  }

  // ----- Ratios -----

  /** Two figures with a colon between, white space anywhere between them, and the rest. */
  predicate IsRatioText(s: string, a: string, x: string, b: string, c: string, y: string, rest: string) {
    && AllSpace(a) && AllSpace(b) && AllSpace(c) && IsFigure(x) && IsFigure(y)
    && (|y| == 6 || rest == "" || !IsDigit(rest[0])) && s == a + x + b + ":" + c + y + rest
  }

  lemma FirstOf(x: string, rest: string)
    requires IsFigure(x)
    ensures (x + rest)[0] == x[0] && !IsSpace(x[0])
  {
  }

  lemma ColonAfter(b: string, rest: string)
    requires AllSpace(b)
    ensures (b + ":" + rest) != "" && !IsDigit((b + ":" + rest)[0]) && SkipSpace(b + ":" + rest) == ":" + rest
  {
    assert b + ":" + rest == b + (":" + rest);
    SkipOf(b, ":" + rest);
    assert (b + ":" + rest)[0] == if b == "" then ':' else b[0];
    hide SkipSpace;
  }

  /** The scan, along a text of that shape. */
  lemma ScanAlong(s: string, a: string, x: string, b: string, c: string, y: string, rest: string)
    requires IsRatioText(s, a, x, b, c, y, rest)
    ensures var afterW := b + ":" + c + y + rest;
            && TakeNumber(SkipSpace(s)) == Some((Number(x), afterW))
            && SkipSpace(afterW) == ":" + (c + y + rest)
            && TakeNumber(SkipSpace(c + y + rest)) == Some((Number(y), rest))
  {
    var afterW := b + ":" + c + y + rest;
    assert s == a + (x + afterW) && afterW == b + ":" + (c + y + rest) && c + y + rest == c + (y + rest);
    FirstOf(x, afterW);
    FirstOf(y, rest);
    SkipOf(a, x + afterW);
    SkipOf(c, y + rest);
    ColonAfter(b, c + y + rest);
    FigureIs(x, afterW);
    FigureIs(y, rest);
    hide SkipSpace, TakeNumber, Number, AllDigits, AllSpace;
  }

  lemma ScanWhole(s: string) returns (a: string, x: string, b: string, c: string, y: string, rest: string)
    requires Parse(Str(s)).Some?
    ensures IsRatioText(s, a, x, b, c, y, rest)
    ensures Parse(Str(s)).value.w == Number(x) && Parse(Str(s)).value.h == Number(y)
    ensures Parse(Str(s)).value.note == NoteOf(Strip(rest)) && Parse(Str(s)).value.literal == s
  {
    hide SkipSpace, TakeNumber, Number, NoteOf, Strip;
    a := SkipWhole(s);
    var afterW;
    x, afterW := FigureWhole(SkipSpace(s));
    b := SkipWhole(afterW);
    var colon := SkipSpace(afterW);
    c := SkipWhole(colon[1..]);
    y, rest := FigureWhole(SkipSpace(colon[1..]));
    assert colon == ":" + colon[1..];
    hide AllSpace, AllDigits;
    assert s == a + (x + (b + (":" + (c + (y + rest)))));
    assert a + (x + (b + (":" + (c + (y + rest))))) == a + x + b + ":" + c + y + rest;
  }

  /** A text names a ratio exactly if it is of that shape and neither figure is zero; the figures
      are not reduced, and the label is what follows them. */
  lemma RatiosExactly(s: string, r: Ratio)
    ensures Parse(Str(s)) == Some(r)
            <==> && r.literal == s && r.w > 0 && r.h > 0
                 && exists a, x, b, c, y, rest :: IsRatioText(s, a, x, b, c, y, rest) && IsRead(r, x, y, rest)
  {
    if Parse(Str(s)) == Some(r) {
      var a, x, b, c, y, rest := ScanWhole(s);
      NotesExactly(rest, r.note);
      assert IsRatioText(s, a, x, b, c, y, rest) && IsRead(r, x, y, rest);
      ParsedIsPositive(Str(s));
    }
    if a, x, b, c, y, rest :| IsRatioText(s, a, x, b, c, y, rest) && IsRead(r, x, y, rest) {
      ScanAlong(s, a, x, b, c, y, rest);
      NotesExactly(rest, r.note);
      hide SkipSpace, TakeNumber, Number, NoteOf, Strip, IsLabelled, IsRatioText;
    }
  }

  ghost predicate IsRead(r: Ratio, x: string, y: string, rest: string)
    requires IsFigure(x) && IsFigure(y)
  {
    r.w == Number(x) && r.h == Number(y) && exists front, m, back :: IsLabelled(rest, front, m, back, r.note)
  }

  // ----- Distances -----

  lemma Quotients(p: real, q: real, u: real, v: real)
    requires p > 0.0 && q > 0.0 && u > 0.0 && v > 0.0
    ensures (p / q) / (u / v) == (p * v) / (q * u) && (p / q < u / v <==> p * v < q * u)
  {
    var a, b := p / q, u / v;
    assert a * q == p && b * v == u;
    assert a * q * v == p * v && b * v * q == u * q;
    assert q * v > 0.0 && q * u > 0.0;
    assert p * v == a * (q * v) && q * u == b * (q * v);
    assert a / b * (q * u) == p * v by {
      assert a / b * b == a;
      assert a / b * (q * u) == a / b * b * (q * v);
    }
  }

  /** Of the two ratios' values the greater divided by the lesser: one when they are equal, and the
      same whichever is the greater, so that it grows with the difference of their logarithms. */
  lemma DistanceIs(o: Ratio, t: Ratio)
    requires o.w > 0 && o.h > 0 && t.w > 0 && t.h > 0
    ensures var a, b := o.w as real / o.h as real, t.w as real / t.h as real;
            b != 0.0 && a != 0.0 && Distance(o, t) == if a < b then b / a else a / b
  {
    Quotients(o.w as real, o.h as real, t.w as real, t.h as real);
    Quotients(t.w as real, t.h as real, o.w as real, o.h as real);
    ProductIsPositive(o.w, t.h);
    ProductIsPositive(o.h, t.w);
    assert (o.w * t.h) as real == o.w as real * t.h as real && (o.h * t.w) as real == o.h as real * t.w as real;
  }
}
