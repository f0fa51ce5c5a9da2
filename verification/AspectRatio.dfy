/** Aspect-ratio literals, menus of them, and snapping a request to a menu (`util/aspect.py`).
    Distances are exact: `|log a - log t|` grows with `max(a/t, t/a)`, which is compared instead. */
module AspectRatio {
  import opened Options
  import opened Strings

  datatype Ratio = Ratio(w: nat, h: nat, note: Option<string>, literal: string)

  /** What a meta file's list, a graph's input or a request may hold. */
  datatype Declared = Str(s: string) | NotAString

  /** How many digits `s` starts with, up to `limit`. */
  function DigitRun(s: string, limit: nat): (n: nat)
    ensures n <= |s| && n <= limit && AllDigits(s[..n])
  {
    if limit > 0 && s != "" && IsDigit(s[0]) then 1 + DigitRun(s[1..], limit - 1) else 0
  }

  /** A number of one to six digits and what follows it. */
  function TakeNumber(s: string): Option<(nat, string)> {
    var n := DigitRun(s, 6);
    if n == 0 then None else Some((Number(s[..n]), s[n..]))
  }

  /** `parse_aspect_ratio`: a leading `W:H` token with both parts positive, then a label. */
  function Parse(d: Declared): Option<Ratio> {
    if d.NotAString? then None
    else match TakeNumber(SkipSpace(d.s))
      case None => None
      case Some((w, afterW)) =>
        var colon := SkipSpace(afterW);
        if colon == "" || colon[0] != ':' then None
        else match TakeNumber(SkipSpace(colon[1..]))
          case None => None
          case Some((h, afterH)) =>
            if w == 0 || h == 0 then None else Some(Ratio(w, h, NoteOf(Strip(afterH)), d.s))
  }

  function NoteOf(rest: string): Option<string> {
    var inner := if |rest| >= 2 && rest[0] == '(' && rest[|rest| - 1] == ')' then Strip(rest[1..|rest| - 1]) else rest;
    if inner == "" then None else Some(inner)
  }

  /** `value`, which a client is shown and sends back. */
  function Spelled(r: Ratio): string {
    Decimal(r.w) + ":" + Decimal(r.h)
  }

  predicate SameValue(a: Ratio, b: Ratio) {
    a.w == b.w && a.h == b.h
  }

  // ----- Menus -----

  predicate Offers(options: seq<Ratio>, r: Ratio) {
    exists i :: 0 <= i < |options| && SameValue(options[i], r)
  }

  function ParseAll(raw: seq<Declared>): seq<Ratio> {
    if raw == [] then []
    else
      var rest := ParseAll(raw[..|raw| - 1]);
      match Parse(raw[|raw| - 1])
      case None => rest
      case Some(r) => if Offers(rest, r) then rest else rest + [r]
  }

  /** `parse_aspect_ratios`; `None` stands for a declaration that is not a list. */
  method ParseAspectRatios(raw: Option<seq<Declared>>) returns (options: seq<Ratio>)
    ensures options == if raw.None? then [] else ParseAll(raw.value)
  {
    options := [];
    if raw.None? {
      return;
    }
    var seen: set<(nat, nat)> := {};
    for i := 0 to |raw.value|
      invariant options == ParseAll(raw.value[..i])
      invariant forall p :: p in seen <==> exists k :: 0 <= k < |options| && (options[k].w, options[k].h) == p
    {
      assert raw.value[..i + 1][..i] == raw.value[..i];
      var parsed := Parse(raw.value[i]);
      if parsed.None? {
        continue;
      }
      if (parsed.value.w, parsed.value.h) in seen {
        continue;
      }
      ghost var before := options;
      seen := seen + {(parsed.value.w, parsed.value.h)};
      options := options + [parsed.value];
      assert options[|before|] == parsed.value;
      forall p | p in seen ensures exists k :: 0 <= k < |options| && (options[k].w, options[k].h) == p {
        if k :| 0 <= k < |before| && (before[k].w, before[k].h) == p {
          assert options[k] == before[k];
        }
      }
    }
    assert raw.value[..|raw.value|] == raw.value;
  }

  /** Options differ pairwise and each is what its own literal says. */
  predicate IsMenu(options: seq<Ratio>) {
    && (forall i :: 0 <= i < |options| ==> Parse(Str(options[i].literal)) == Some(options[i]))
    && (forall i, j :: 0 <= i < j < |options| ==> !SameValue(options[i], options[j]))
  }

  lemma {:induction false} ParsedIsMenu(raw: seq<Declared>)
    ensures IsMenu(ParseAll(raw))
    decreases |raw|
  {
    if raw != [] {
      ParsedIsMenu(raw[..|raw| - 1]);
      var last := raw[|raw| - 1];
      if Parse(last).Some? {
        assert last == Str(Parse(last).value.literal);
      }
      hide Parse;
    }
  }

  /** No declared ratio is lost: each that parses is offered, under its first spelling. */
  lemma {:induction false} NothingIsLost(raw: seq<Declared>, d: Declared)
    requires d in raw && Parse(d).Some?
    ensures Offers(ParseAll(raw), Parse(d).value)
    decreases |raw|
  {
    hide Parse;
    var n := |raw| - 1;
    var rest := ParseAll(raw[..n]);
    if d != raw[n] {
      assert raw == raw[..n] + [raw[n]];
      NothingIsLost(raw[..n], d);
      var i :| 0 <= i < |rest| && SameValue(rest[i], Parse(d).value);
      assert ParseAll(raw)[i] == rest[i];
    } else if !Offers(rest, Parse(d).value) {
      assert ParseAll(raw)[|rest|] == Parse(d).value;
    }
  }

  // ----- Snapping -----

  /** `max(a/t, t/a)` for the ratios of `o` and `t`: one when they are equal, more the further
      apart they are, in either direction. */
  function Distance(o: Ratio, t: Ratio): real {
    if o.w == 0 || o.h == 0 || t.w == 0 || t.h == 0 then 0.0
    else
      var a, b := (o.w * t.h) as real, (o.h * t.w) as real;
      Divided(if a < b then b else a, if a < b then a else b)
  }

  function Divided(a: real, b: real): real {
    if b == 0.0 then 0.0 else a / b
  }

  /** The first option of the wanted value from `from` on. */
  function Exact(options: seq<Ratio>, want: Ratio, from: nat): (r: Option<nat>)
    requires from <= |options|
    ensures r.Some? ==> from <= r.value < |options| && SameValue(options[r.value], want)
                        && forall j :: from <= j < r.value ==> !SameValue(options[j], want)
    ensures r.None? ==> forall j :: from <= j < |options| ==> !SameValue(options[j], want)
    decreases |options| - from
  {
    if from == |options| then None
    else if SameValue(options[from], want) then Some(from)
    else Exact(options, want, from + 1)
  }

  /** `k` is the first of the options before `n` that are nearest to `want`. */
  predicate IsNearest(options: seq<Ratio>, want: Ratio, k: nat, n: nat) {
    && k < n <= |options|
    && (forall j :: 0 <= j < n ==> Distance(options[k], want) <= Distance(options[j], want))
    && (forall j :: 0 <= j < k ==> Distance(options[k], want) < Distance(options[j], want))
  }

  function Nearest(options: seq<Ratio>, want: Ratio, n: nat): (k: nat)
    requires 0 < n <= |options|
    ensures IsNearest(options, want, k, n)
  {
    if n == 1 then 0
    else
      var k := Nearest(options, want, n - 1);
      if Distance(options[n - 1], want) < Distance(options[k], want) then n - 1 else k
  }

  function Snap(requested: Declared, options: seq<Ratio>): (r: Option<Ratio>)
    ensures r.Some? ==> r.value in options
  {
    if options == [] || Parse(requested).None? then None
    else
      var want := Parse(requested).value;
      var exact := Exact(options, want, 0);
      Some(if exact.Some? then options[exact.value] else options[Nearest(options, want, |options|)])
  }

  /** `snap_aspect_ratio`. */
  method SnapAspectRatio(requested: Declared, options: seq<Ratio>) returns (r: Option<Ratio>)
    ensures r == Snap(requested, options)
  {
    if options == [] {
      return None;
    }
    var parsed := Parse(requested);
    if parsed.None? {
      return None;
    }
    var want := parsed.value;
    for i := 0 to |options|
      invariant Exact(options, want, 0) == Exact(options, want, i)
    {
      if SameValue(options[i], want) {
        return Some(options[i]);
      }
    }
    var nearest := 0;
    for n := 1 to |options|
      invariant nearest == Nearest(options, want, n)
    {
      if Distance(options[n], want) < Distance(options[nearest], want) {
        nearest := n;
      }
    }
    r := Some(options[nearest]);
  }

  lemma QuotientAtLeastOne(a: real, b: real)
    requires a >= b > 0.0
    ensures a / b >= 1.0 && (a / b == 1.0 <==> a == b)
  {
    var q := a / b;
    assert q * b == a;
    if q < 1.0 {
      Shrinks(q, b);
    }
  }

  lemma Shrinks(q: real, b: real)
    requires q < 1.0 && b > 0.0
    ensures q * b < b
  {
  }

  /** The distance is one exactly for equal ratios, and never less. */
  lemma DistanceIsOne(o: Ratio, t: Ratio)
    requires o.w > 0 && o.h > 0 && t.w > 0 && t.h > 0
    ensures Distance(o, t) >= 1.0
    ensures Distance(o, t) == 1.0 <==> o.w * t.h == o.h * t.w
  {
    var a, b := o.w * t.h, o.h * t.w;
    ProductIsPositive(o.w, t.h);
    ProductIsPositive(o.h, t.w);
    if a < b {
      QuotientAtLeastOne(b as real, a as real);
    } else {
      QuotientAtLeastOne(a as real, b as real);
    }
  }

  lemma ProductIsPositive(a: int, b: int)
    requires a > 0 && b > 0
    ensures a * b > 0
  {
  }

  lemma ParsedIsPositive(d: Declared)
    requires Parse(d).Some?
    ensures Parse(d).value.w > 0 && Parse(d).value.h > 0
  {
  }

  /** The option snapped to is nearest of all in log space; one spelled as requested comes before
      any other, and of equally near ones the earliest declared. */
  lemma SnapIsNearest(requested: Declared, options: seq<Ratio>)
    requires IsMenu(options)
    ensures Snap(requested, options).None? <==> options == [] || Parse(requested).None?
    ensures Snap(requested, options).Some? ==>
              var want, chosen := Parse(requested).value, Snap(requested, options).value;
              && (forall o :: o in options ==> Distance(chosen, want) <= Distance(o, want))
              && (Offers(options, want) ==> SameValue(chosen, want))
              && (!Offers(options, want) ==>
                    exists k :: 0 <= k < |options| && options[k] == chosen
                                && forall j :: 0 <= j < k ==> Distance(chosen, want) < Distance(options[j], want))
  {
    if Snap(requested, options).Some? {
      ParsedIsPositive(requested);
      var want, chosen := Parse(requested).value, Snap(requested, options).value;
      forall i | 0 <= i < |options| ensures options[i].w > 0 && options[i].h > 0 {
        ParsedIsPositive(Str(options[i].literal));
      }
      hide Parse, Distance;
      var exact := Exact(options, want, 0);
      if exact.Some? {
        DistanceIsOne(chosen, want);
        SameIsEqual(chosen, want);
        forall o | o in options ensures Distance(chosen, want) <= Distance(o, want) {
          var i :| 0 <= i < |options| && options[i] == o;
          DistanceIsOne(o, want);
        }
      } else {
        var k := Nearest(options, want, |options|);
        assert IsNearest(options, want, k, |options|);
      }
    }
  }

  lemma SameIsEqual(a: Ratio, b: Ratio)
    requires SameValue(a, b)
    ensures a.w * b.h == a.h * b.w
  {
  }

  // ----- Values read back -----

  lemma {:induction false} RunOf(digits: string, rest: string, limit: nat)
    requires |digits| <= limit && forall i :: 0 <= i < |digits| ==> IsDigit(digits[i])
    requires |digits| == limit || rest == "" || !IsDigit(rest[0])
    ensures DigitRun(digits + rest, limit) == |digits|
    decreases |digits|
  {
    if digits != "" {
      assert (digits + rest)[1..] == digits[1..] + rest;
      RunOf(digits[1..], rest, limit - 1);
    } else {
      assert digits + rest == rest;
    }
  }

  /** A number below ten to the `k` has at most `k` digits. */
  lemma {:induction false} DecimalLength(n: nat, k: nat)
    requires k > 0 && n < TenTo(k)
    ensures |Decimal(n)| <= k
    decreases k
  {
    if n >= 10 {
      assert k > 1;
      DecimalLength(n / 10, k - 1);
    }
  }

  function TenTo(k: nat): nat {
    if k == 0 then 1 else 10 * TenTo(k - 1)
  }

  lemma {:induction false} NumberIsSmall(digits: string)
    requires AllDigits(digits)
    ensures Number(digits) < TenTo(|digits|)
    decreases |digits|
  {
    if digits != "" {
      NumberIsSmall(DropLast(digits));
    }
  }

  lemma {:induction false} TenToGrows(a: nat, b: nat)
    requires a <= b
    ensures TenTo(a) <= TenTo(b)
    decreases b
  {
    if a < b {
      TenToGrows(a, b - 1);
    }
  }

  lemma TakenIsSmall(s: string)
    requires TakeNumber(s).Some?
    ensures TakeNumber(s).value.0 < TenTo(6)
  {
    var n := DigitRun(s, 6);
    NumberIsSmall(s[..n]);
    TenToGrows(n, 6);
  }

  lemma TakeDecimal(n: nat, rest: string)
    requires n < TenTo(6) && (rest == "" || !IsDigit(rest[0]))
    ensures TakeNumber(Decimal(n) + rest) == Some((n, rest))
  {
    DecimalLength(n, 6);
    RunOf(Decimal(n), rest, 6);
    NumberOfDecimal(n);
    assert (Decimal(n) + rest)[..|Decimal(n)|] == Decimal(n);
    assert (Decimal(n) + rest)[|Decimal(n)|..] == rest;
  }

  lemma ParsedIsSmall(d: Declared)
    requires Parse(d).Some?
    ensures Parse(d).value.w < TenTo(6) && Parse(d).value.h < TenTo(6)
  {
    var first := TakeNumber(SkipSpace(d.s));
    TakenIsSmall(SkipSpace(d.s));
    TakenIsSmall(SkipSpace(SkipSpace(first.value.1)[1..]));
    hide TakeNumber, SkipSpace, Strip;
  }

  /** The value shown for a ratio parses to that ratio again. */
  lemma SpelledParses(d: Declared)
    requires Parse(d).Some?
    ensures Parse(Str(Spelled(Parse(d).value))).Some?
    ensures SameValue(Parse(Str(Spelled(Parse(d).value))).value, Parse(d).value)
  {
    var r := Parse(d).value;
    ParsedIsSmall(d);
    ParsedIsPositive(d);
    var rest := ":" + Decimal(r.h);
    var s := Decimal(r.w) + rest;
    assert Spelled(r) == s;
    TakeDecimal(r.w, rest);
    TakeDecimal(r.h, "");
    assert Decimal(r.h) + "" == Decimal(r.h) && rest[1..] == Decimal(r.h);
    assert IsDigit(s[0]) && SkipSpace(s) == s;
    assert IsDigit(Decimal(r.h)[0]) && SkipSpace(Decimal(r.h)) == Decimal(r.h);
    assert SkipSpace(rest) == rest;
    hide TakeNumber, SkipSpace, Strip, Decimal;
  }

  lemma ExactIs(options: seq<Ratio>, want: Ratio, k: nat)
    requires IsMenu(options) && k < |options| && SameValue(options[k], want)
    ensures Exact(options, want, 0) == Some(k)
  {
    hide Parse;
    var e := Exact(options, want, 0);
    assert e.Some? && e.value <= k;
  }

  /** Snapping settles at once: the value of what a request snapped to snaps to itself. */
  lemma SnapIsIdempotent(requested: Declared, options: seq<Ratio>)
    requires IsMenu(options) && Snap(requested, options).Some?
    ensures Snap(Str(Spelled(Snap(requested, options).value)), options) == Snap(requested, options)
  {
    var chosen := Snap(requested, options).value;
    var k: nat :| k < |options| && options[k] == chosen;
    assert Parse(Str(chosen.literal)) == Some(chosen);
    SpelledParses(Str(chosen.literal));
    hide Parse, Spelled, Distance, Exact, Nearest, IsMenu;
    var again := Parse(Str(Spelled(chosen))).value;
    ExactIs(options, again, k);
  }
}
