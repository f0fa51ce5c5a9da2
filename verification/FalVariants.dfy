/** Pairing fal's text-driven endpoints with their reference-image halves, and the listing that
    is left (`backends/fal/catalog.py`). */
module FalVariants {
  import opened Options

  /** A raw catalogue item; `id` is `None` for anything that is not a non-empty string. */
  datatype Item = Item(id: Option<string>, category: Option<string>)

  type Catalog = map<string, Option<string>>

  const TEXT_TO_IMAGE := "text-to-image"
  const TEXT_TO_VIDEO := "text-to-video"
  const IMAGE_TO_IMAGE := "image-to-image"
  const IMAGE_TO_VIDEO := "image-to-video"

  /** `_VARIANT_PAIRS`. */
  function PartnerOf(category: string): Option<string> {
    if category == TEXT_TO_IMAGE then Some(IMAGE_TO_IMAGE)
    else if category == TEXT_TO_VIDEO then Some(IMAGE_TO_VIDEO)
    else None
  }

  function SuffixesOf(category: string): seq<string> {
    if category == TEXT_TO_IMAGE then ["/edit", "/image-to-image", "/edit-image"]
    else if category == TEXT_TO_VIDEO then ["/image-to-video", "/edit"]
    else []
  }

  predicate EndsWith(s: string, suffix: string) {
    |s| >= |suffix| && s[|s| - |suffix|..] == suffix
  }

  function Suffixed(stem: string, suffixes: seq<string>): (r: seq<string>)
    ensures |r| == |suffixes| && forall k :: 0 <= k < |r| ==> r[k] == stem + suffixes[k]
  {
    if suffixes == [] then [] else Suffixed(stem, suffixes[..|suffixes| - 1]) + [stem + suffixes[|suffixes| - 1]]
  }

  function VariantCandidates(id: string, category: string): seq<string> {
    var textSuffix := "/" + category;
    if PartnerOf(category).None? then []
    else if EndsWith(id, textSuffix) then
      Suffixed(id[..|id| - |textSuffix|], SuffixesOf(category)) + Suffixed(id, SuffixesOf(category))
    else Suffixed(id, SuffixesOf(category))
  }

  /** The dictionary comprehension over the raw catalogue: of items with one id, the last. */
  function ById(raw: seq<Item>): Catalog {
    if raw == [] then map[]
    else
      var rest := ById(raw[..|raw| - 1]);
      var last := raw[|raw| - 1];
      if last.id.None? then rest else rest[last.id.value := last.category]
  }

  predicate Fits(byId: Catalog, candidate: string, partner: string) {
    candidate in byId && byId[candidate] == Some(partner)
  }

  /** `k` is the first candidate from `from` on that is in the catalogue as the right half. */
  predicate IsFirstFit(byId: Catalog, candidates: seq<string>, partner: string, k: nat) {
    && k < |candidates| && Fits(byId, candidates[k], partner)
    && forall j :: 0 <= j < k ==> !Fits(byId, candidates[j], partner)
  }

  function FirstFit(byId: Catalog, candidates: seq<string>, partner: string, from: nat): (r: Option<nat>)
    requires from <= |candidates| && forall j :: 0 <= j < from ==> !Fits(byId, candidates[j], partner)
    ensures r.Some? ==> IsFirstFit(byId, candidates, partner, r.value)
    ensures r.None? ==> forall j :: 0 <= j < |candidates| ==> !Fits(byId, candidates[j], partner)
    decreases |candidates| - from
  {
    if from == |candidates| then None
    else if Fits(byId, candidates[from], partner) then Some(from)
    else FirstFit(byId, candidates, partner, from + 1)
  }

  /** Where a request for `id` that carries a reference image goes, if elsewhere. */
  function RouteOf(byId: Catalog, id: string): Option<string> {
    if id !in byId || byId[id].None? || PartnerOf(byId[id].value).None? then None
    else
      var candidates := VariantCandidates(id, byId[id].value);
      var k := FirstFit(byId, candidates, PartnerOf(byId[id].value).value, 0);
      if k.None? then None else Some(candidates[k.value])
  }

  function Routes(byId: Catalog): map<string, string> {
    map id | id in byId && RouteOf(byId, id).Some? :: RouteOf(byId, id).value
  }

  /** `pair_variants`: `order` is the dictionary's iteration order. */
  method PairVariants(byId: Catalog, order: seq<string>, collapse: bool)
    returns (routes: map<string, string>, collapsed: set<string>)
    requires forall id :: id in byId <==> id in order
    ensures routes == if collapse then Routes(byId) else map[]
    ensures collapsed == routes.Values
  {
    routes, collapsed := map[], {};
    if !collapse {
      return;
    }
    for i := 0 to |order|
      invariant routes.Keys == set id | id in order[..i] && RouteOf(byId, id).Some?
      invariant forall id :: id in routes ==> RouteOf(byId, id) == Some(routes[id])
      invariant collapsed == routes.Values
    {
      var id := order[i];
      assert order[..i + 1] == order[..i] + [id];
      var route: Option<string> := None;
      if byId[id].Some? && PartnerOf(byId[id].value).Some? {
        route := Partner(byId, id, byId[id].value);
      }
      ghost var before := routes;
      if route.Some? {
        routes := routes[id := route.value];
        collapsed := collapsed + {route.value};
        ValuesGrow(before, id, route.value, byId);
      }
    }
    assert order[..|order|] == order;
  }

  lemma ValuesGrow(routes: map<string, string>, id: string, target: string, byId: Catalog)
    requires id in routes ==> routes[id] == target
    ensures routes[id := target].Values == routes.Values + {target}
  {
    var after := routes[id := target];
    forall v | v in routes.Values ensures v in after.Values {
      var k :| k in routes && routes[k] == v;
      assert k in after && after[k] == v;
    }
    assert after[id] == target;
  }

  /** The inner loop: candidates in order, the first that fits. */
  method Partner(byId: Catalog, id: string, category: string) returns (route: Option<string>)
    requires id in byId && byId[id] == Some(category) && PartnerOf(category).Some?
    ensures route == RouteOf(byId, id)
  {
    var candidates := VariantCandidates(id, category);
    var partner := PartnerOf(category).value;
    for k := 0 to |candidates|
      invariant forall j :: 0 <= j < k ==> !Fits(byId, candidates[j], partner)
    {
      if Fits(byId, candidates[k], partner) {
        FirstFitIs(byId, candidates, partner, k);
        return Some(candidates[k]);
      }
    }
    route := None;
  }

  lemma FirstFitIs(byId: Catalog, candidates: seq<string>, partner: string, k: nat)
    requires IsFirstFit(byId, candidates, partner, k)
    ensures FirstFit(byId, candidates, partner, 0) == Some(k)
  {
    var r := FirstFit(byId, candidates, partner, 0);
    assert r.Some? && IsFirstFit(byId, candidates, partner, r.value);
  }

  /** The ids the listing keeps, in catalogue order, each at its first occurrence. */
  function Listing(raw: seq<Item>, collapsed: set<string>): seq<string> {
    if raw == [] then []
    else
      var rest := Listing(raw[..|raw| - 1], collapsed);
      var last := raw[|raw| - 1];
      if last.id.None? || last.id.value in rest || last.id.value in collapsed then rest else rest + [last.id.value]
  }

  /** The entries loop of `entries_from_catalog`. */
  method EntriesFromCatalog(raw: seq<Item>, order: seq<string>, collapse: bool)
    returns (ids: seq<string>, routes: map<string, string>)
    requires forall id :: id in ById(raw) <==> id in order
    ensures routes == if collapse then Routes(ById(raw)) else map[]
    ensures ids == Listing(raw, routes.Values)
  {
    var collapsed: set<string>;
    routes, collapsed := PairVariants(ById(raw), order, collapse);
    ids := [];
    var seen: set<string> := {};
    for i := 0 to |raw|
      invariant ids == Listing(raw[..i], collapsed)
      invariant forall id :: id in seen <==> id in ids
    {
      assert raw[..i + 1][..i] == raw[..i];
      var item := raw[i];
      if item.id.None? || item.id.value in seen {
        continue;
      }
      if item.id.value in collapsed {
        continue;
      }
      seen := seen + {item.id.value};
      ids := ids + [item.id.value];
    }
    assert raw[..|raw|] == raw;
  }

  // ----- What is listed and what is routed -----

  lemma {:induction false} ListingHolds(raw: seq<Item>, collapsed: set<string>, id: string)
    ensures id in Listing(raw, collapsed) <==> id in ById(raw) && id !in collapsed
    decreases |raw|
  {
    if raw != [] {
      ListingHolds(raw[..|raw| - 1], collapsed, id);
    }
  }

  lemma {:induction false} ListedOnce(raw: seq<Item>, collapsed: set<string>, id: string)
    ensures multiset(Listing(raw, collapsed))[id] <= 1
    decreases |raw|
  {
    if raw != [] {
      ListedOnce(raw[..|raw| - 1], collapsed, id);
    }
  }

  /** A route leaves a text-driven endpoint for its reference-image half, the first candidate
      that the catalogue has as such; and there is a route whenever there is a candidate. */
  lemma RouteIsFirstFit(byId: Catalog, id: string)
    ensures var routes := Routes(byId);
            && (id in routes ==>
                  && id in byId && byId[id].Some? && PartnerOf(byId[id].value).Some?
                  && routes[id] in byId && byId[routes[id]] == PartnerOf(byId[id].value)
                  && exists k: nat :: IsFirstFit(byId, VariantCandidates(id, byId[id].value), PartnerOf(byId[id].value).value, k)
                                      && VariantCandidates(id, byId[id].value)[k] == routes[id])
            && (id in byId && byId[id].Some? && PartnerOf(byId[id].value).Some? && id !in routes ==>
                  forall c :: c in VariantCandidates(id, byId[id].value) ==> !Fits(byId, c, PartnerOf(byId[id].value).value))
  {
    hide VariantCandidates;
    if id in byId && byId[id].Some? && PartnerOf(byId[id].value).Some? {
      var candidates := VariantCandidates(id, byId[id].value);
      var k := FirstFit(byId, candidates, PartnerOf(byId[id].value).value, 0);
      if k.Some? {
        assert IsFirstFit(byId, candidates, PartnerOf(byId[id].value).value, k.value);
      }
    }
  }

  /** No route's target is itself routed, so routing never chains. */
  lemma RoutesNeverChain(byId: Catalog, a: string, b: string)
    requires a in Routes(byId) && b in Routes(byId)
    ensures Routes(byId)[a] != b
  {
    RouteIsFirstFit(byId, a);
    RouteIsFirstFit(byId, b);
    hide Routes, RouteOf, VariantCandidates;
  }

  /** With collapsing on, every id of the catalogue is listed exactly once or is where a listed
      id routes to, and never both; nothing else is listed. */
  lemma ListedOrRouted(raw: seq<Item>, id: string)
    ensures var byId := ById(raw);
            var routes := Routes(byId);
            var ids := Listing(raw, routes.Values);
            && (id in byId ==>
                  (multiset(ids)[id] == 1 <==> !exists source :: source in ids && source in routes && routes[source] == id))
            && (id in byId <==> id in ids || id in routes.Values)
            && multiset(ids)[id] <= 1
            && !(id in ids && id in routes.Values)
            && (id in routes ==> id in ids)
  {
    var byId := ById(raw);
    var routes := Routes(byId);
    var ids := Listing(raw, routes.Values);
    ListingHolds(raw, routes.Values, id);
    ListedOnce(raw, routes.Values, id);
    assert id in ids <==> multiset(ids)[id] > 0;
    if id in routes.Values {
      var source :| source in routes && routes[source] == id;
      RouteIsFirstFit(byId, source);
      SourceIsListed(raw, source);
      assert source in ids && source in routes && routes[source] == id;
    }
    if id in routes {
      SourceIsListed(raw, id);
    }
    hide Routes, Listing, RouteOf;
  }

  lemma SourceIsListed(raw: seq<Item>, source: string)
    requires source in Routes(ById(raw))
    ensures source in Listing(raw, Routes(ById(raw)).Values)
  {
    var routes := Routes(ById(raw));
    RouteIsFirstFit(ById(raw), source);
    hide Routes, RouteOf, VariantCandidates;
    if source in routes.Values {
      var s :| s in routes && routes[s] == source;
      RoutesNeverChain(ById(raw), s, source);
    }
    ListingHolds(raw, routes.Values, source);
  }

  // ----- Order -----

  predicate Distinct(raw: seq<Item>) {
    forall i, j :: 0 <= i < j < |raw| && raw[i].id.Some? ==> raw[i].id != raw[j].id
  }

  lemma {:induction false} ByIdOfDistinct(raw: seq<Item>, id: string, category: Option<string>)
    requires Distinct(raw)
    ensures id in ById(raw) && ById(raw)[id] == category <==> Item(Some(id), category) in raw
    decreases |raw|
  {
    if raw != [] {
      var n := |raw| - 1;
      ByIdOfDistinct(raw[..n], id, category);
      assert raw == raw[..n] + [raw[n]];
    }
  }

  /** The pairing does not depend on the order of the catalogue, and the listing only in order. */
  lemma OrderDoesNotMatter(a: seq<Item>, b: seq<Item>, id: string)
    requires multiset(a) == multiset(b) && Distinct(a) && Distinct(b)
    ensures Routes(ById(a)) == Routes(ById(b))
    ensures id in Listing(a, Routes(ById(a)).Values) <==> id in Listing(b, Routes(ById(b)).Values)
  {
    forall x | x in ById(a) || x in ById(b) ensures x in ById(a) && x in ById(b) && ById(a)[x] == ById(b)[x] {
      var category := if x in ById(a) then ById(a)[x] else ById(b)[x];
      ByIdOfDistinct(a, x, category);
      ByIdOfDistinct(b, x, category);
      assert Item(Some(x), category) in multiset(a) <==> Item(Some(x), category) in multiset(b);
    }
    assert ById(a) == ById(b);
    ListingHolds(a, Routes(ById(a)).Values, id);
    ListingHolds(b, Routes(ById(b)).Values, id);
    hide Routes, Listing, ById;
  }

  lemma SuffixedAre(stem: string, a: string, b: string, c: string)
    ensures Suffixed(stem, [a, b]) == [stem + a, stem + b] && Suffixed(stem, [a, b, c]) == [stem + a, stem + b, stem + c]
  {
  }

  lemma TwoShapes(base: string, category: string)
    requires PartnerOf(category).Some?
    ensures var full, suffixes := base + "/" + category, SuffixesOf(category);
            && VariantCandidates(full, category) == Suffixed(base, suffixes) + Suffixed(full, suffixes)
            && (!EndsWith(base, "/" + category) ==> VariantCandidates(base, category) == Suffixed(base, suffixes))
  {
    var full := base + "/" + category;
    assert full == base + ("/" + category);
    assert full[..|full| - |"/" + category|] == base;
    assert EndsWith(full, "/" + category);
    hide Suffixed, SuffixesOf;
  }

  /** The candidates, for either category, in the order they are tried: an id with the text suffix
      has it replaced before it has anything added; any other id only gains a suffix; an id of any
      other category has none. */
  lemma CandidateShapes(base: string, category: string)
    ensures var full := base + "/" + category;
            if category == "text-to-image" then
              && VariantCandidates(full, category)
                 == [base + "/edit", base + "/image-to-image", base + "/edit-image",
                     full + "/edit", full + "/image-to-image", full + "/edit-image"]
              && (!EndsWith(base, "/" + category) ==>
                    VariantCandidates(base, category) == [base + "/edit", base + "/image-to-image", base + "/edit-image"])
            else if category == "text-to-video" then
              && VariantCandidates(full, category) == [base + "/image-to-video", base + "/edit", full + "/image-to-video", full + "/edit"]
              && (!EndsWith(base, "/" + category) ==>
                    VariantCandidates(base, category) == [base + "/image-to-video", base + "/edit"])
            else VariantCandidates(base, category) == []
  {
    if PartnerOf(category).Some? {
      TwoShapes(base, category);
      var full := base + "/" + category;
      hide VariantCandidates, Suffixed, EndsWith;
      SuffixedAre(base, "/edit", "/image-to-image", "/edit-image");
      SuffixedAre(full, "/edit", "/image-to-image", "/edit-image");
      SuffixedAre(base, "/image-to-video", "/edit", "");
      SuffixedAre(full, "/image-to-video", "/edit", "");
    }
  }

  // ----- The order of the listing -----

  /** Where an id first stands in the catalogue; its length if it stands nowhere. */
  function FirstAt(raw: seq<Item>, id: string): (i: nat)
    ensures i <= |raw|
  {
    if raw == [] || raw[0].id == Some(id) then 0 else 1 + FirstAt(raw[1..], id)
  }

  lemma {:induction false} FirstAtSnoc(raw: seq<Item>, item: Item, id: string)
    ensures FirstAt(raw + [item], id)
            == if FirstAt(raw, id) < |raw| then FirstAt(raw, id) else if item.id == Some(id) then |raw| else |raw| + 1
    decreases |raw|
  {
    if raw == [] {
      assert raw + [item] == [item];
    } else {
      assert (raw + [item])[1..] == raw[1..] + [item];
      FirstAtSnoc(raw[1..], item, id);
    }
  }

  /** The ids stand in the catalogue, and in this order. */
  predicate InOrder(raw: seq<Item>, ids: seq<string>) {
    && (forall i :: 0 <= i < |ids| ==> FirstAt(raw, ids[i]) < |raw|)
    && forall i, j :: 0 <= i < j < |ids| ==> FirstAt(raw, ids[i]) < FirstAt(raw, ids[j])
  }

  lemma OrderSnoc(front: seq<Item>, last: Item, rest: seq<string>, ids: seq<string>)
    requires InOrder(front, rest)
    requires ids == rest || (last.id.Some? && ids == rest + [last.id.value] && FirstAt(front, last.id.value) == |front|)
    ensures InOrder(front + [last], ids)
  {
    forall i | 0 <= i < |ids|
      ensures FirstAt(front + [last], ids[i]) == if i < |rest| then FirstAt(front, rest[i]) else |front|
    {
      FirstAtSnoc(front, last, ids[i]);
    }
    hide FirstAt;
  }

  /** The ids are listed in the order in which the catalogue first has them. */
  lemma {:induction false} ListedInOrder(raw: seq<Item>, collapsed: set<string>)
    ensures InOrder(raw, Listing(raw, collapsed))
    decreases |raw|
  {
    if raw != [] {
      var front, last := raw[..|raw| - 1], raw[|raw| - 1];
      ListedInOrder(front, collapsed);
      assert raw == front + [last];
      if last.id.Some? && last.id.value !in collapsed && last.id.value !in Listing(front, collapsed) {
        NotYetListed(front, collapsed, last.id.value);
      }
      hide InOrder, FirstAt;
      OrderSnoc(front, last, Listing(front, collapsed), Listing(raw, collapsed));
    }
  }

  /** An id that the catalogue has and that is not folded away is listed. */
  lemma {:induction false} NotYetListed(raw: seq<Item>, collapsed: set<string>, id: string)
    requires id !in collapsed && id !in Listing(raw, collapsed)
    ensures FirstAt(raw, id) == |raw|
    decreases |raw|
  {
    if raw != [] {
      var front, last := raw[..|raw| - 1], raw[|raw| - 1];
      assert raw == front + [last];
      NotYetListed(front, collapsed, id);
      FirstAtSnoc(front, last, id);
    }
  }
}
