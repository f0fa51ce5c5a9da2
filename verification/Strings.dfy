/** Characters and pieces of strings that several components read. White space is blank, tab,
    line feed and carriage return; digits are those of ASCII. */
module Strings {
  predicate IsDigit(c: char) {
    '0' <= c <= '9'
  }

  predicate IsSpace(c: char) {
    c == ' ' || c == '\t' || c == '\n' || c == '\r'
  }

  function DropLast(s: string): string
    requires s != ""
  {
    s[..|s| - 1]
  }

  function SkipSpace(s: string): (r: string)
    ensures |r| <= |s|
  {
    if s != "" && IsSpace(s[0]) then SkipSpace(s[1..]) else s
  }

  function StripRight(s: string): string {
    if s != "" && IsSpace(s[|s| - 1]) then StripRight(DropLast(s)) else s
  }

  function Strip(s: string): string {
    StripRight(SkipSpace(s))
  }

  predicate AllDigits(s: string) {
    forall i :: 0 <= i < |s| ==> IsDigit(s[i])
  }

  /** `int(digits)`. */
  function Number(digits: string): nat
    requires AllDigits(digits)
  {
    if digits == "" then 0
    else
      assert IsDigit(digits[|digits| - 1]);
      10 * Number(DropLast(digits)) + (digits[|digits| - 1] as int - '0' as int)
  }

  function Decimal(n: nat): (s: string)
    ensures |s| >= 1 && AllDigits(s)
  {
    if n < 10 then [('0' as int + n) as char] else Decimal(n / 10) + [('0' as int + n % 10) as char]
  }

  lemma {:induction false} NumberOfDecimal(n: nat)
    ensures Number(Decimal(n)) == n
    decreases n
  {
    if n >= 10 {
      NumberOfDecimal(n / 10);
      assert DropLast(Decimal(n)) == Decimal(n / 10);
    } else {
      assert DropLast(Decimal(n)) == "";
    }
  }

  /** `s.split(separator)`. */
  function Split(s: string, separator: char): (r: seq<string>)
    ensures |r| >= 1
  {
    if s == "" then [""]
    else if s[0] == separator then [""] + Split(s[1..], separator)
    else
      var rest := Split(s[1..], separator);
      [[s[0]] + rest[0]] + rest[1..]
  }

  function Join(parts: seq<string>, separator: char): string {
    if parts == [] then ""
    else if |parts| == 1 then parts[0]
    else parts[0] + [separator] + Join(parts[1..], separator)
  }

  lemma {:induction false} JoinSplit(s: string, separator: char)
    ensures Join(Split(s, separator), separator) == s
    decreases |s|
  {
    if s != "" {
      JoinSplit(s[1..], separator);
      var rest := Split(s[1..], separator);
      if s[0] == separator {
        assert ([""] + rest)[1..] == rest;
      } else {
        var r := Split(s, separator);
        assert r[1..] == rest[1..];
        if |rest| > 1 {
          assert rest[0] + [separator] + Join(rest[1..], separator) == s[1..];
        }
      }
    }
  }

  lemma {:induction false} SplitTwo(a: string, b: string, separator: char)
    ensures Split(a + [separator] + b, separator) == Split(a, separator) + Split(b, separator)
    decreases |a|
  {
    if a == "" {
      assert a + [separator] + b == [separator] + b && ([separator] + b)[1..] == b;
    } else {
      assert (a + [separator] + b)[1..] == a[1..] + [separator] + b;
      SplitTwo(a[1..], b, separator);
    }
  }

  lemma {:induction false} SplitNone(s: string, separator: char)
    requires separator !in s
    ensures Split(s, separator) == [s]
    decreases |s|
  {
    if s != "" {
      SplitNone(s[1..], separator);
      assert s == [s[0]] + s[1..];
    }
  }

  lemma JoinThree(a: string, b: string, c: string, separator: char)
    ensures Join([a, b], separator) == a + [separator] + b
    ensures Join([a, b, c], separator) == a + [separator] + b + [separator] + c
  {
    assert [a, b][1..] == [b] && [a, b, c][1..] == [b, c] && [b, c][1..] == [c];
    assert Join([b, c], separator) == b + [separator] + c;
  }

  // ----- What stripping takes off -----

  predicate AllSpace(s: string) {
    forall i :: 0 <= i < |s| ==> s[i] == ' ' || s[i] == '\t' || s[i] == '\n' || s[i] == '\r'
  }

  /** Something with no white space at either end. */
  predicate IsTrimmed(s: string) {
    s != "" && !AllSpace([s[0]]) && !AllSpace([s[|s| - 1]])
  }

  lemma {:induction false} SkipIs(s: string)
    ensures AllSpace(s[..|s| - |SkipSpace(s)|]) && SkipSpace(s) == s[|s| - |SkipSpace(s)|..]
    ensures SkipSpace(s) != "" ==> !IsSpace(SkipSpace(s)[0])
    decreases |s|
  {
    if s != "" && IsSpace(s[0]) {
      SkipIs(s[1..]);
      var k := |s| - |SkipSpace(s)|;
      assert s[..k] == [s[0]] + s[1..][..k - 1];
    }
  }

  lemma {:induction false} StripRightIs(s: string)
    ensures |StripRight(s)| <= |s| && StripRight(s) == s[..|StripRight(s)|] && AllSpace(s[|StripRight(s)|..])
    ensures StripRight(s) != "" ==> !IsSpace(StripRight(s)[|StripRight(s)| - 1])
    decreases |s|
  {
    if s != "" && IsSpace(s[|s| - 1]) {
      StripRightIs(DropLast(s));
      var k := |StripRight(s)|;
      assert s[k..] == DropLast(s)[k..] + [s[|s| - 1]];
    }
  }

  lemma SpaceIs(c: char)
    ensures AllSpace([c]) <==> IsSpace(c)
  {
    assert [c][0] == c;
  }

  /** What stripping takes off, and that nothing is left to take. */
  lemma StripIs(s: string) returns (front: string, back: string)
    ensures s == front + Strip(s) + back && AllSpace(front) && AllSpace(back)
    ensures Strip(s) == "" || IsTrimmed(Strip(s))
  {
    SkipIs(s);
    var rest := SkipSpace(s);
    StripRightIs(rest);
    front, back := s[..|s| - |rest|], rest[|Strip(s)|..];
    assert s == front + rest && rest == Strip(s) + back;
    if Strip(s) != "" {
      assert Strip(s)[0] == rest[0];
      SpaceIs(rest[0]);
      SpaceIs(Strip(s)[|Strip(s)| - 1]);
    }
    hide SkipSpace, StripRight, Strip;
  }

  /** There is one way to strip. */
  lemma StripOf(front: string, m: string, back: string)
    requires AllSpace(front) && AllSpace(back) && (m == "" || IsTrimmed(m))
    ensures Strip(front + m + back) == m
  {
    var s := front + m + back;
    var f, b := StripIs(s);
    var t := Strip(s);
    assert forall i :: 0 <= i < |front| ==> s[i] == front[i];
    assert forall i :: 0 <= i < |m| ==> s[|front| + i] == m[i];
    assert forall i :: 0 <= i < |back| ==> s[|front| + |m| + i] == back[i];
    assert forall i :: 0 <= i < |f| ==> s[i] == f[i];
    assert forall i :: 0 <= i < |t| ==> s[|f| + i] == t[i];
    assert forall i :: 0 <= i < |b| ==> s[|f| + |t| + i] == b[i];
    hide Strip;
    assert m == "" ==> AllSpace(s);
    assert t == "" ==> AllSpace(s);
    assert s[|front|..|front| + |m|] == m && s[|f|..|f| + |t|] == t;
    if m != "" {
      HoldsMore(s, |front|, m);
    }
    if t != "" {
      HoldsMore(s, |f|, t);
    }
    if m != "" && t != "" {
      SameEnds(s, front, m, f, t);
    }
  }

  lemma HoldsMore(s: string, i: nat, m: string)
    requires IsTrimmed(m) && i + |m| <= |s| && s[i..i + |m|] == m
    ensures !AllSpace(s)
  {
    assert s[i] == m[0];
  }

  lemma SameEnds(s: string, front: string, m: string, f: string, t: string)
    requires IsTrimmed(m) && IsTrimmed(t)
    requires |front| + |m| <= |s| && |f| + |t| <= |s| && s[|front|..|front| + |m|] == m && s[|f|..|f| + |t|] == t
    requires forall i :: 0 <= i < |s| && !(|front| <= i < |front| + |m|) ==> AllSpace([s[i]])
    requires forall i :: 0 <= i < |s| && !(|f| <= i < |f| + |t|) ==> AllSpace([s[i]])
    ensures m == t
  {
    assert s[|front|] == m[0] && s[|f|] == t[0];
    assert s[|front| + |m| - 1] == m[|m| - 1] && s[|f| + |t| - 1] == t[|t| - 1];
    assert |front| == |f| && |front| + |m| == |f| + |t|;
  }
}
