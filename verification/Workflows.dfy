/** ComfyUI workflows (`backends/comfyui/workflows.py`): the aspect-ratio declaration a scan
    accepts, the overrides a request injects into a graph, and the ratio the response reports. */
module Workflows {
  import opened AspectRatio
  import opened Options
  import opened Strings

  /** The value of one input of a graph node. A list of file names may be written as such or as
      its JSON text, which starts with a bracket and so is no ratio. */
  datatype Input = Text(s: string) | Num(n: int) | Names(names: seq<string>, dumped: bool) | Other

  /** Inputs that are no object cannot be written to; looking for a seed in them may raise as well
      (a number does, and so does a text or a list with a seed field's name in it). */
  datatype Inputs = NoInputs | Inputs(at: map<string, Input>) | BadInputs(raises: bool)

  datatype Node = Node(inputs: Inputs) | NotANode

  type Graph = map<string, Node>

  datatype Slot = Slot(node: string, field: string)

  /** One entry of `image_inputs`; a missing name reads as the empty string. */
  datatype Spec = Spec(slot: Slot, multiple: bool, dumped: bool)

  /** The meta file, defaults filled in. `ratios` is `None` when not declared, and otherwise what
      was declared if that is a list. `seedNodes` is `None` when every node is seeded. */
  datatype Meta = Meta(
    prompt: Slot,
    images: seq<Spec>,
    seedNodes: Option<set<string>>,
    ratioNode: Option<string>,
    ratioField: string,
    ratios: Option<Option<seq<Declared>>>,
    dimensionsNode: string,
    widthField: string,
    heightField: string,
    length: Slot)

  datatype Record = Record(meta: Meta, options: seq<Ratio>, standard: Option<string>)

  /** What the random generator draws for each field of each node. */
  type Seeds = (string, string) -> int

  datatype Request = Request(prompt: string, images: seq<string>, width: int, height: int, ratio: Declared, length: int,
                             seeds: Seeds)

  datatype Outcome = Prepared(graph: Graph) | NoPromptNode | Surplus(consumed: nat) | Broken

  // ----- Reading and writing a graph -----

  function At(g: Graph, slot: Slot): Option<Input> {
    if slot.node in g && g[slot.node].Node? && g[slot.node].inputs.Inputs? && slot.field in g[slot.node].inputs.at
    then Some(g[slot.node].inputs.at[slot.field]) else None
  }

  /** The canonical ratio a slot holds, if it holds one. */
  function RatioAt(g: Graph, slot: Slot): Option<string> {
    var held := At(g, slot);
    if held.None? || !held.value.Text? then None else Canonical(Str(held.value.s))
  }

  function Canonical(d: Declared): Option<string> {
    if Parse(d).None? then None else Some(Spelled(Parse(d).value))
  }

  /** `node["inputs"][field] = value`; `None` where that raises. `create` is `setdefault`. */
  function Write(g: Graph, slot: Slot, value: Input, create: bool): Option<Graph> {
    if slot.node !in g || g[slot.node].NotANode? then None
    else match g[slot.node].inputs
      case BadInputs(_) => None
      case NoInputs => if create then Some(g[slot.node := Node(Inputs(map[slot.field := value]))]) else None
      case Inputs(at) => Some(g[slot.node := Node(Inputs(at[slot.field := value]))])
  }

  // ----- The scan -----

  /** `_resolve_aspect_ratios`. */
  function Resolve(meta: Meta, graph: Option<Graph>): (seq<Ratio>, Option<string>) {
    if meta.ratioNode.None? || meta.ratios.None? || meta.ratios.value.None? then ([], None)
    else
      var options := ParseAll(meta.ratios.value.value);
      var slot := Slot(meta.ratioNode.value, meta.ratioField);
      if options == [] || graph.None? || At(graph.value, slot).None? then ([], None)
      else (options, RatioAt(graph.value, slot))
  }

  function Scanned(meta: Meta, graph: Option<Graph>): Record {
    Record(meta, Resolve(meta, graph).0, Resolve(meta, graph).1)
  }

  // ----- Images -----

  predicate Usable(spec: Spec, g: Graph) {
    spec.slot.node != "" && spec.slot.field != "" && spec.slot.node in g
  }

  /** What a spec takes of the names that are left, and whether it writes anything. */
  function Taken(spec: Spec, g: Graph, left: seq<string>): seq<string> {
    if !Usable(spec, g) then [] else if spec.multiple then left else if left == [] then [] else [left[0]]
  }

  function Left(spec: Spec, g: Graph, left: seq<string>): seq<string> {
    left[|Taken(spec, g, left)|..]
  }

  function Value(spec: Spec, taken: seq<string>): Input {
    if spec.multiple then Names(taken, spec.dumped) else if taken == [] then Other else Text(taken[0])
  }

  predicate Writes(spec: Spec, g: Graph, left: seq<string>) {
    Usable(spec, g) && (spec.multiple || left != [])
  }

  /** The names left for the `n`-th spec. */
  function LeftFor(specs: seq<Spec>, g: Graph, names: seq<string>, n: nat): seq<string>
    requires n <= |specs|
  {
    if n == 0 then names else Left(specs[n - 1], g, LeftFor(specs, g, names, n - 1))
  }

  /** The graph after the first `n` specs; which nodes it has does not change. */
  function ImagesIn(specs: seq<Spec>, g: Graph, names: seq<string>, n: nat): (r: Option<Graph>)
    requires n <= |specs|
    ensures r.Some? ==> r.value.Keys == g.Keys
  {
    if n == 0 then Some(g)
    else
      var before := ImagesIn(specs, g, names, n - 1);
      var left := LeftFor(specs, g, names, n - 1);
      if before.None? || !Writes(specs[n - 1], g, left) then before
      else Write(before.value, specs[n - 1].slot, Value(specs[n - 1], Taken(specs[n - 1], g, left)), false)
  }

  function InjectImages(specs: seq<Spec>, g: Graph, names: seq<string>): Outcome {
    if specs == [] || names == [] then Prepared(g)
    else
      var after := ImagesIn(specs, g, names, |specs|);
      var left := LeftFor(specs, g, names, |specs|);
      if after.None? then Broken
      else if left != [] then Surplus(if |names| >= |left| then |names| - |left| else 0)
      else Prepared(after.value)
  }

  /** The loop over `image_inputs`, which uses up `remaining`. */
  method HandOutImages(specs: seq<Spec>, g: Graph, names: seq<string>) returns (outcome: Outcome)
    ensures outcome == InjectImages(specs, g, names)
  {
    if specs == [] || names == [] {
      return Prepared(g);
    }
    var workflow, remaining := g, names;
    for i := 0 to |specs|
      invariant ImagesIn(specs, g, names, i) == Some(workflow) && remaining == LeftFor(specs, g, names, i)
    {
      var spec := specs[i];
      if spec.slot.node == "" || spec.slot.field == "" || spec.slot.node !in workflow {
        continue;
      }
      var written: Option<Graph> := Some(workflow);
      if spec.multiple {
        written := Write(workflow, spec.slot, Names(remaining, spec.dumped), false);
        remaining := [];
      } else if remaining != [] {
        written := Write(workflow, spec.slot, Text(remaining[0]), false);
        remaining := remaining[1..];
      }
      if written.None? {
        BrokenStays(specs, g, names, i + 1, |specs|);
        return Broken;
      }
      workflow := written.value;
    }
    if remaining != [] {
      return Surplus(if |names| >= |remaining| then |names| - |remaining| else 0);
    }
    outcome := Prepared(workflow);
  }

  lemma {:induction false} BrokenStays(specs: seq<Spec>, g: Graph, names: seq<string>, m: nat, n: nat)
    requires m <= n <= |specs| && ImagesIn(specs, g, names, m).None?
    ensures ImagesIn(specs, g, names, n).None?
    decreases n
  {
    if m < n {
      BrokenStays(specs, g, names, m, n - 1);
    }
  }

  // ----- The other overrides -----

  predicate IsSeedField(field: string) {
    field == "seed" || field == "noise_seed"
  }

  function SeededInputs(inputs: Inputs, node: string, seeds: Seeds): Inputs {
    match inputs
    case Inputs(at) => Inputs(map f | f in at :: if IsSeedField(f) && at[f].Num? then Num(seeds(node, f)) else at[f])
    case _ => inputs
  }

  predicate IsSeeded(g: Graph, nodes: Option<set<string>>, n: string) {
    n in g && g[n].Node? && (nodes.None? || n in nodes.value)
  }

  /** Looking for seeds fails on the inputs of some node. */
  predicate SeedingRaises(g: Graph, nodes: Option<set<string>>) {
    exists n :: n in g && IsSeeded(g, nodes, n) && g[n].inputs == BadInputs(true)
  }

  function Seeded(g: Graph, nodes: Option<set<string>>, seeds: Seeds): Graph {
    map n | n in g :: if IsSeeded(g, nodes, n) then Node(SeededInputs(g[n].inputs, n, seeds)) else g[n]
  }

  /** Where a selected ratio goes. */
  function RatioSlot(meta: Meta): Slot {
    Slot(if meta.ratioNode.Some? then meta.ratioNode.value else "None", meta.ratioField)
  }

  function InjectRatio(record: Record, g: Graph, requested: Declared): Option<Graph> {
    var chosen := Snap(requested, record.options);
    var slot := RatioSlot(record.meta);
    if slot.node !in g || g[slot.node].NotANode? || chosen.None? then Some(g)
    else Write(g, slot, Text(chosen.value.literal), true)
  }

  function InjectDimension(g: Graph, slot: Slot, size: int): Option<Graph> {
    if slot.node == "" || slot.node !in g || size <= 0 then Some(g) else Write(g, slot, Num(size), false)
  }

  function InjectSize(record: Record, g: Graph, width: int, height: int): Option<Graph> {
    var meta := record.meta;
    var wide := InjectDimension(g, Slot(meta.dimensionsNode, meta.widthField), width);
    if wide.None? then None else InjectDimension(wide.value, Slot(meta.dimensionsNode, meta.heightField), height)
  }

  /** `prepare_workflow`. */
  function Prepare(record: Record, g: Graph, req: Request): Outcome {
    var meta := record.meta;
    if meta.prompt.node !in g then NoPromptNode
    else match Write(g, meta.prompt, Text(req.prompt), true)
      case None => Broken
      case Some(prompted) =>
        match InjectImages(meta.images, prompted, req.images)
        case Prepared(imaged) =>
          if SeedingRaises(imaged, meta.seedNodes) then Broken
          else Finish(record, Seeded(imaged, meta.seedNodes, req.seeds), req)
        case other => other
  }

  function Finish(record: Record, g: Graph, req: Request): Outcome {
    match if record.options != [] then InjectRatio(record, g, req.ratio) else InjectSize(record, g, req.width, req.height)
    case None => Broken
    case Some(sized) =>
      match InjectDimension(sized, record.meta.length, req.length)
      case None => Broken
      case Some(done) => Prepared(done)
  }

  method PrepareWorkflow(record: Record, g: Graph, req: Request) returns (outcome: Outcome)
    ensures outcome == Prepare(record, g, req)
  {
    var meta := record.meta;
    if meta.prompt.node !in g {
      return NoPromptNode;
    }
    var prompted := Write(g, meta.prompt, Text(req.prompt), true);
    if prompted.None? {
      return Broken;
    }
    var imaged := HandOutImages(meta.images, prompted.value, req.images);
    if !imaged.Prepared? {
      return imaged;
    }
    if SeedingRaises(imaged.graph, meta.seedNodes) {
      return Broken;
    }
    var workflow := Seeded(imaged.graph, meta.seedNodes, req.seeds);
    var sized: Option<Graph>;
    if record.options != [] {
      sized := InjectRatio(record, workflow, req.ratio);
    } else {
      sized := InjectSize(record, workflow, req.width, req.height);
    }
    if sized.None? {
      return Broken;
    }
    var done := InjectDimension(sized.value, meta.length, req.length);
    if done.None? {
      return Broken;
    }
    outcome := Prepared(done.value);
  }

  /** `effective_aspect_ratio`, what the response reports. */
  function Effective(record: Record, requested: Declared): Option<string> {
    var chosen := Snap(requested, record.options);
    if chosen.Some? then Some(Spelled(chosen.value)) else record.standard
  }

  // ----- Reference images are conserved -----

  lemma WriteOther(g: Graph, slot: Slot, value: Input, create: bool, other: Slot)
    requires Write(g, slot, value, create).Some?
    ensures At(Write(g, slot, value, create).value, slot) == Some(value)
    ensures other != slot ==> At(Write(g, slot, value, create).value, other) == At(g, other)
  {
  }

  /** What the `n`-th spec does to a slot. */
  lemma ImageStep(specs: seq<Spec>, g: Graph, names: seq<string>, n: nat, slot: Slot)
    requires 0 < n <= |specs| && ImagesIn(specs, g, names, n).Some?
    ensures ImagesIn(specs, g, names, n - 1).Some?
    ensures var left := LeftFor(specs, g, names, n - 1);
            At(ImagesIn(specs, g, names, n).value, slot) ==
            if Writes(specs[n - 1], g, left) && specs[n - 1].slot == slot then Some(Value(specs[n - 1], Taken(specs[n - 1], g, left)))
            else At(ImagesIn(specs, g, names, n - 1).value, slot)
  {
    hide Write, At, Value, Taken, Writes, LeftFor;
    var left := LeftFor(specs, g, names, n - 1);
    var before := ImagesIn(specs, g, names, n - 1);
    if before.Some? && Writes(specs[n - 1], g, left) {
      WriteOther(before.value, specs[n - 1].slot, Value(specs[n - 1], Taken(specs[n - 1], g, left)), false, slot);
    }
  }

  lemma {:induction false} ImagesLeave(specs: seq<Spec>, g: Graph, names: seq<string>, n: nat, slot: Slot)
    requires n <= |specs| && ImagesIn(specs, g, names, n).Some?
    requires forall k :: 0 <= k < n ==> !(Usable(specs[k], g) && specs[k].slot == slot)
    ensures At(ImagesIn(specs, g, names, n).value, slot) == At(g, slot)
    decreases n
  {
    if n > 0 {
      hide At, Value, Taken, LeftFor, ImagesIn, Usable;
      ImageStep(specs, g, names, n, slot);
      ImagesLeave(specs, g, names, n - 1, slot);
    }
  }

  /** What the first `n` specs were handed, end to end. */
  function Handed(specs: seq<Spec>, g: Graph, names: seq<string>, n: nat): seq<string>
    requires n <= |specs|
  {
    if n == 0 then []
    else Handed(specs, g, names, n - 1) + Taken(specs[n - 1], g, LeftFor(specs, g, names, n - 1))
  }

  function Singles(specs: seq<Spec>, g: Graph, n: nat): nat
    requires n <= |specs|
  {
    if n == 0 then 0 else Singles(specs, g, n - 1) + if Usable(specs[n - 1], g) && !specs[n - 1].multiple then 1 else 0
  }

  predicate HasMultiple(specs: seq<Spec>, g: Graph, n: nat)
    requires n <= |specs|
  {
    exists k :: 0 <= k < n && Usable(specs[k], g) && specs[k].multiple
  }

  lemma TakenIsFront(spec: Spec, g: Graph, left: seq<string>)
    ensures |Taken(spec, g, left)| <= |left| && Taken(spec, g, left) == left[..|Taken(spec, g, left)|]
  {
  }

  lemma Regroup(a: seq<string>, left: seq<string>, k: nat)
    requires k <= |left|
    ensures a + left[..k] + left[k..] == a + left
  {
  }

  lemma {:induction false} NothingVanishes(specs: seq<Spec>, g: Graph, names: seq<string>, n: nat)
    requires n <= |specs|
    ensures Handed(specs, g, names, n) + LeftFor(specs, g, names, n) == names
    decreases n
  {
    if n == 0 {
      assert [] + names == names;
    } else {
      NothingVanishes(specs, g, names, n - 1);
      var left := LeftFor(specs, g, names, n - 1);
      TakenIsFront(specs[n - 1], g, left);
      Regroup(Handed(specs, g, names, n - 1), left, |Taken(specs[n - 1], g, left)|);
      hide Taken;
    }
  }

  lemma {:induction false} HowManyLeft(specs: seq<Spec>, g: Graph, names: seq<string>, n: nat)
    requires n <= |specs|
    ensures |LeftFor(specs, g, names, n)| ==
            if HasMultiple(specs, g, n) || |names| <= Singles(specs, g, n) then 0 else |names| - Singles(specs, g, n)
    decreases n
  {
    if n > 0 {
      HowManyLeft(specs, g, names, n - 1);
      assert HasMultiple(specs, g, n) <==> HasMultiple(specs, g, n - 1) || (Usable(specs[n - 1], g) && specs[n - 1].multiple);
    }
  }

  predicate DistinctSlots(specs: seq<Spec>, g: Graph) {
    forall j, k :: 0 <= j < k < |specs| && Usable(specs[j], g) && Usable(specs[k], g) ==> specs[j].slot != specs[k].slot
  }

  /** A spec's slot holds what it was handed, from then on. */
  lemma {:induction false} SlotHolds(specs: seq<Spec>, g: Graph, names: seq<string>, k: nat, n: nat)
    requires k < n <= |specs| && DistinctSlots(specs, g) && ImagesIn(specs, g, names, n).Some?
    requires Usable(specs[k], g)
    ensures var left := LeftFor(specs, g, names, k);
            At(ImagesIn(specs, g, names, n).value, specs[k].slot)
            == (if Writes(specs[k], g, left) then Some(Value(specs[k], Taken(specs[k], g, left))) else At(g, specs[k].slot))
    decreases n
  {
    hide At, Value, Taken, LeftFor, ImagesIn, Usable;
    ImageStep(specs, g, names, n, specs[k].slot);
    if k < n - 1 {
      SlotHolds(specs, g, names, k, n - 1);
    } else {
      ImagesLeave(specs, g, names, n - 1, specs[k].slot);
    }
  }

  /** With distinct slots, a workflow that was prepared holds the reference images in its usable
      image inputs, in declared order, every one of them once. */
  lemma ImagesAreConserved(specs: seq<Spec>, g: Graph, names: seq<string>)
    requires specs != [] && names != [] && DistinctSlots(specs, g) && InjectImages(specs, g, names).Prepared?
    ensures Handed(specs, g, names, |specs|) == names
    ensures forall k :: 0 <= k < |specs| && Usable(specs[k], g) ==>
              var left := LeftFor(specs, g, names, k);
              At(InjectImages(specs, g, names).graph, specs[k].slot)
              == (if Writes(specs[k], g, left) then Some(Value(specs[k], Taken(specs[k], g, left))) else At(g, specs[k].slot))
  {
    NothingVanishes(specs, g, names, |specs|);
    assert Handed(specs, g, names, |specs|) + [] == Handed(specs, g, names, |specs|);
    forall k | 0 <= k < |specs| && Usable(specs[k], g)
      ensures var left := LeftFor(specs, g, names, k);
              At(InjectImages(specs, g, names).graph, specs[k].slot)
              == (if Writes(specs[k], g, left) then Some(Value(specs[k], Taken(specs[k], g, left))) else At(g, specs[k].slot))
    {
      SlotHolds(specs, g, names, k, |specs|);
    }
  }

  /** Surplus images are refused exactly when there is no usable `multiple` input and fewer usable
      single ones than images; a workflow that declares no image inputs refuses none. */
  lemma SurplusExactlyWhen(specs: seq<Spec>, g: Graph, names: seq<string>)
    ensures specs == [] ==> InjectImages(specs, g, names) == Prepared(g)
    ensures specs != [] && names != [] && !InjectImages(specs, g, names).Broken? ==>
              (InjectImages(specs, g, names).Surplus? <==>
                 !HasMultiple(specs, g, |specs|) && Singles(specs, g, |specs|) < |names|)
    ensures InjectImages(specs, g, names).Surplus? ==>
              InjectImages(specs, g, names).consumed == Singles(specs, g, |specs|)
  {
    HowManyLeft(specs, g, names, |specs|);
    hide LeftFor, ImagesIn, HasMultiple, Singles;
  }

  // ----- Image inputs on the ratio's slot -----

  lemma OneToOne()
    ensures Canonical(Str("1:1")).Some? && Canonical(Str("")).None?
    ensures Parse(NotAString).None?
  {
    assert TakeNumber("1:1") == Some((1, ":1")) by {
      assert Decimal(1) == "1" && Decimal(1) + ":1" == "1:1";
      TakeDecimal(1, ":1");
    }
    assert TakeNumber("1") == Some((1, "")) by {
      assert Decimal(1) + "" == "1";
      TakeDecimal(1, "");
    }
    assert SkipSpace("1:1") == "1:1" && SkipSpace(":1") == ":1" && ":1"[1..] == "1" && SkipSpace("1") == "1";
  }

  predicate HasInputs(g: Graph, node: string) {
    node in g && g[node].Node? && g[node].inputs.Inputs?
  }

  /** Given `count` images, the `j`-th spec writes: a `multiple` one always, a single one if no
      `multiple` one before it has taken all and there are images left. */
  predicate WritesGiven(specs: seq<Spec>, g: Graph, count: nat, j: nat)
    requires j < |specs|
  {
    Usable(specs[j], g) && (specs[j].multiple || (!HasMultiple(specs, g, j) && Singles(specs, g, j) < count))
  }

  /** Each of the first `n` specs that writes finds inputs to write to. */
  predicate AcceptsUpTo(specs: seq<Spec>, g: Graph, count: nat, n: nat)
    requires n <= |specs|
  {
    forall j :: 0 <= j < n && WritesGiven(specs, g, count, j) ==> HasInputs(g, specs[j].slot.node)
  }

  predicate Accepts(specs: seq<Spec>, g: Graph, count: nat) {
    AcceptsUpTo(specs, g, count, |specs|)
  }

  predicate MultipleOn(specs: seq<Spec>, g: Graph, slot: Slot, n: nat)
    requires n <= |specs|
  {
    exists k :: 0 <= k < n && Usable(specs[k], g) && specs[k].multiple && specs[k].slot == slot
  }

  /** The `k`-th spec can be the last to write to the slot, and what it writes is not `standard`. */
  predicate LandsAt(specs: seq<Spec>, g: Graph, slot: Slot, standard: Option<string>, k: nat)
    requires k < |specs|
  {
    && Usable(specs[k], g) && specs[k].slot == slot
    && if specs[k].multiple then standard.Some? && Accepts(specs, g, 1)
       else !HasMultiple(specs, g, k) && !MultipleOn(specs, g, slot, |specs|) && Accepts(specs, g, Singles(specs, g, k + 1))
  }

  predicate ImageLands(specs: seq<Spec>, g: Graph, slot: Slot, standard: Option<string>) {
    exists k :: 0 <= k < |specs| && LandsAt(specs, g, slot, standard, k)
  }

  lemma WhoWrites(specs: seq<Spec>, g: Graph, names: seq<string>, j: nat)
    requires j < |specs|
    ensures Writes(specs[j], g, LeftFor(specs, g, names, j)) <==> WritesGiven(specs, g, |names|, j)
  {
    HowManyLeft(specs, g, names, j);
    hide LeftFor, HasMultiple, Singles;
  }

  lemma WriteNeedsInputs(g: Graph, slot: Slot, value: Input)
    ensures Write(g, slot, value, false).Some? <==> HasInputs(g, slot.node)
    ensures Write(g, slot, value, false).Some? ==>
              forall node :: HasInputs(Write(g, slot, value, false).value, node) <==> HasInputs(g, node)
    ensures Write(g, slot, value, false).Some? ==>
              forall other :: At(g, other).Some? ==> At(Write(g, slot, value, false).value, other).Some?
  {
  }

  /** The graphs have inputs at the same nodes, and the second still has what the first had. */
  ghost predicate SameInputs(g: Graph, h: Graph) {
    && (forall node :: HasInputs(h, node) <==> HasInputs(g, node))
    && (forall slot :: At(g, slot).Some? ==> At(h, slot).Some?)
  }

  lemma ImageGoesIn(specs: seq<Spec>, g: Graph, names: seq<string>, n: nat)
    requires 0 < n <= |specs| && ImagesIn(specs, g, names, n - 1).Some?
    ensures var before := ImagesIn(specs, g, names, n - 1).value;
            && (ImagesIn(specs, g, names, n).Some? <==>
                  (WritesGiven(specs, g, |names|, n - 1) ==> HasInputs(before, specs[n - 1].slot.node)))
            && (ImagesIn(specs, g, names, n).Some? ==> SameInputs(before, ImagesIn(specs, g, names, n).value))
  {
    hide Write, At, Value, Taken, HasInputs, WritesGiven, Writes, LeftFor;
    WhoWrites(specs, g, names, n - 1);
    WriteNeedsInputs(ImagesIn(specs, g, names, n - 1).value, specs[n - 1].slot,
                     Value(specs[n - 1], Taken(specs[n - 1], g, LeftFor(specs, g, names, n - 1))));
  }

  lemma {:induction false} InputsStay(specs: seq<Spec>, g: Graph, names: seq<string>, n: nat)
    requires n <= |specs| && ImagesIn(specs, g, names, n).Some?
    ensures SameInputs(g, ImagesIn(specs, g, names, n).value)
    decreases n
  {
    if n > 0 {
      ImageStep(specs, g, names, n, specs[n - 1].slot);
      hide At, HasInputs, WritesGiven, ImagesIn, LeftFor;
      InputsStay(specs, g, names, n - 1);
      ImageGoesIn(specs, g, names, n);
    }
  }

  lemma AcceptsOneMore(specs: seq<Spec>, g: Graph, count: nat, n: nat)
    requires 0 < n <= |specs|
    ensures AcceptsUpTo(specs, g, count, n) <==>
            AcceptsUpTo(specs, g, count, n - 1) && (WritesGiven(specs, g, count, n - 1) ==> HasInputs(g, specs[n - 1].slot.node))
  {
    hide WritesGiven, HasInputs;
  }

  /** The images go in exactly when every spec that writes finds inputs. */
  lemma {:induction false} WhenImagesGoIn(specs: seq<Spec>, g: Graph, names: seq<string>, n: nat)
    requires n <= |specs|
    ensures ImagesIn(specs, g, names, n).Some? <==> AcceptsUpTo(specs, g, |names|, n)
    decreases n
  {
    if n > 0 {
      WhenImagesGoIn(specs, g, names, n - 1);
      AcceptsOneMore(specs, g, |names|, n);
      hide AcceptsUpTo, WritesGiven, HasInputs, At, Taken, LeftFor, Writes;
      if ImagesIn(specs, g, names, n - 1).Some? {
        ImageGoesIn(specs, g, names, n);
        InputsStay(specs, g, names, n - 1);
      }
    }
  }

  lemma OneMoreImage(specs: seq<Spec>, g: Graph, names: seq<string>, n: nat, slot: Slot)
    requires 0 < n <= |specs| && ImagesIn(specs, g, names, n).Some?
    ensures ImagesIn(specs, g, names, n - 1).Some?
    ensures At(ImagesIn(specs, g, names, n).value, slot) ==
            if WritesGiven(specs, g, |names|, n - 1) && specs[n - 1].slot == slot
            then Some(Value(specs[n - 1], Taken(specs[n - 1], g, LeftFor(specs, g, names, n - 1))))
            else At(ImagesIn(specs, g, names, n - 1).value, slot)
  {
    hide At, Value, Taken, Writes, WritesGiven, LeftFor, ImagesIn;
    WhoWrites(specs, g, names, n - 1);
    ImageStep(specs, g, names, n, slot);
  }

  lemma {:induction false} NobodyWrites(specs: seq<Spec>, g: Graph, names: seq<string>, from: nat, n: nat, slot: Slot)
    requires from <= n <= |specs| && ImagesIn(specs, g, names, n).Some?
    requires forall j :: from <= j < n && WritesGiven(specs, g, |names|, j) ==> specs[j].slot != slot
    ensures ImagesIn(specs, g, names, from).Some?
    ensures At(ImagesIn(specs, g, names, n).value, slot) == At(ImagesIn(specs, g, names, from).value, slot)
    decreases n
  {
    hide At, Value, Taken, WritesGiven, ImagesIn;
    if from < n {
      OneMoreImage(specs, g, names, n, slot);
      NobodyWrites(specs, g, names, from, n - 1, slot);
    }
  }

  /** Behind a `multiple` spec on the slot no single one writes. */
  lemma MultipleLast(specs: seq<Spec>, g: Graph, count: nat, slot: Slot, n: nat)
    requires n <= |specs| && MultipleOn(specs, g, slot, n)
    ensures n > 0
    ensures WritesGiven(specs, g, count, n - 1) && specs[n - 1].slot == slot ==> specs[n - 1].multiple
    ensures !(WritesGiven(specs, g, count, n - 1) && specs[n - 1].slot == slot) ==> MultipleOn(specs, g, slot, n - 1)
  {
    var k :| 0 <= k < n && Usable(specs[k], g) && specs[k].multiple && specs[k].slot == slot;
    if k < n - 1 {
      assert HasMultiple(specs, g, n - 1);
    }
  }

  /** A `multiple` spec on the slot leaves a list there, whatever comes after it. */
  lemma {:induction false} MultipleWins(specs: seq<Spec>, g: Graph, names: seq<string>, slot: Slot, n: nat)
    requires n <= |specs| && ImagesIn(specs, g, names, n).Some? && MultipleOn(specs, g, slot, n)
    ensures At(ImagesIn(specs, g, names, n).value, slot).Some? && At(ImagesIn(specs, g, names, n).value, slot).value.Names?
    decreases n
  {
    hide At, ImagesIn, LeftFor, Taken, WritesGiven, MultipleOn;
    MultipleLast(specs, g, |names|, slot, n);
    OneMoreImage(specs, g, names, n, slot);
    if !(WritesGiven(specs, g, |names|, n - 1) && specs[n - 1].slot == slot) {
      MultipleWins(specs, g, names, slot, n - 1);
    }
  }

  lemma {:induction false} SinglesGrow(specs: seq<Spec>, g: Graph, m: nat, n: nat)
    requires m <= n <= |specs|
    ensures Singles(specs, g, m) <= Singles(specs, g, n) && (HasMultiple(specs, g, m) ==> HasMultiple(specs, g, n))
    decreases n
  {
    if m < n {
      SinglesGrow(specs, g, m, n - 1);
    }
  }

  lemma FewerAreAccepted(specs: seq<Spec>, g: Graph, few: nat, many: nat)
    requires few <= many && Accepts(specs, g, many)
    ensures Accepts(specs, g, few)
  {
    forall j | 0 <= j < |specs| && WritesGiven(specs, g, few, j) ensures HasInputs(g, specs[j].slot.node) {
      assert WritesGiven(specs, g, many, j);
    }
  }

  /** The last of them is the name in question. */
  function NamesEnding(count: nat, name: string): (r: seq<string>)
    requires count > 0
    ensures |r| == count && r[count - 1] == name
  {
    seq(count, i => if i == count - 1 then name else "")
  }

  /** Given as many images as there are single specs up to it, a single spec is handed the last. */
  lemma LastGoesTo(specs: seq<Spec>, g: Graph, names: seq<string>, k: nat)
    requires k < |specs| && Usable(specs[k], g) && !specs[k].multiple && !HasMultiple(specs, g, k)
    requires |names| == Singles(specs, g, k + 1)
    ensures |names| > 0 && Taken(specs[k], g, LeftFor(specs, g, names, k)) == [names[|names| - 1]]
  {
    NothingVanishes(specs, g, names, k);
    HowManyLeft(specs, g, names, k);
    var handed, left := Handed(specs, g, names, k), LeftFor(specs, g, names, k);
    assert |left| == 1 && left[0] == (handed + left)[|handed|];
    hide Handed, LeftFor, HasMultiple;
  }

  /** The single spec's image stays in the slot. */
  lemma SingleLands(specs: seq<Spec>, g: Graph, names: seq<string>, slot: Slot, k: nat)
    requires k < |specs| && Usable(specs[k], g) && !specs[k].multiple && specs[k].slot == slot
    requires !HasMultiple(specs, g, k) && !MultipleOn(specs, g, slot, |specs|)
    requires |names| == Singles(specs, g, k + 1) && Accepts(specs, g, |names|)
    ensures |names| > 0 && InjectImages(specs, g, names).Prepared?
    ensures At(InjectImages(specs, g, names).graph, slot) == Some(Text(names[|names| - 1]))
  {
    hide At, Taken, WritesGiven, ImagesIn, InjectImages, LeftFor, HasMultiple, MultipleOn, Singles, Accepts, Usable;
    LastGoesTo(specs, g, names, k);
    assert WritesGiven(specs, g, |names|, k) by {
      SingleWrites(specs, g, k);
    }
    AllGoIn(specs, g, names, k);
    NoneComesAfter(specs, g, |names|, slot, k);
    NobodyWrites(specs, g, names, k + 1, |specs|, slot);
    OneMoreImage(specs, g, names, k + 1, slot);
  }

  lemma SingleWrites(specs: seq<Spec>, g: Graph, k: nat)
    requires k < |specs| && Usable(specs[k], g) && !specs[k].multiple && !HasMultiple(specs, g, k)
    ensures WritesGiven(specs, g, Singles(specs, g, k + 1), k)
  {
  }

  lemma AllGoIn(specs: seq<Spec>, g: Graph, names: seq<string>, k: nat)
    requires k < |specs| && names != [] && |names| == Singles(specs, g, k + 1) && Accepts(specs, g, |names|)
    ensures ImagesIn(specs, g, names, |specs|).Some?
    ensures InjectImages(specs, g, names) == Prepared(ImagesIn(specs, g, names, |specs|).value)
  {
    WhenImagesGoIn(specs, g, names, |specs|);
    HowManyLeft(specs, g, names, |specs|);
    SinglesGrow(specs, g, k + 1, |specs|);
    hide ImagesIn, LeftFor, HasMultiple, Singles;
  }

  lemma NoneComesAfter(specs: seq<Spec>, g: Graph, count: nat, slot: Slot, k: nat)
    requires k < |specs| && !MultipleOn(specs, g, slot, |specs|) && count == Singles(specs, g, k + 1)
    ensures forall j :: k + 1 <= j < |specs| && WritesGiven(specs, g, count, j) ==> specs[j].slot != slot
  {
    forall j | k + 1 <= j < |specs| && WritesGiven(specs, g, count, j) ensures specs[j].slot != slot {
      SinglesGrow(specs, g, k + 1, j);
    }
  }

  /** Images that leave another ratio in the slot than the graph's own. */
  lemma ImagesThatLand(specs: seq<Spec>, g: Graph, slot: Slot, standard: Option<string>, k: nat) returns (names: seq<string>)
    requires k < |specs| && LandsAt(specs, g, slot, standard, k)
    ensures names != [] && InjectImages(specs, g, names).Prepared?
    ensures RatioAt(InjectImages(specs, g, names).graph, slot) != standard
  {
    if specs[k].multiple {
      names := [""];
      WhenImagesGoIn(specs, g, names, |specs|);
      HowManyLeft(specs, g, names, |specs|);
      assert MultipleOn(specs, g, slot, |specs|) && HasMultiple(specs, g, |specs|);
      MultipleWins(specs, g, names, slot, |specs|);
    } else {
      OneToOne();
      names := NamesEnding(Singles(specs, g, k + 1), if standard.Some? then "" else "1:1");
      SingleLands(specs, g, names, slot, k);
    }
    hide ImagesIn, LeftFor, Canonical, Parse, Singles;
  }

  lemma WriterLands(specs: seq<Spec>, g: Graph, count: nat, slot: Slot, standard: Option<string>, j: nat)
    requires j < |specs| && WritesGiven(specs, g, count, j) && specs[j].slot == slot
    requires !MultipleOn(specs, g, slot, |specs|) && Accepts(specs, g, count)
    ensures LandsAt(specs, g, slot, standard, j)
  {
    assert !specs[j].multiple;
    FewerAreAccepted(specs, g, Singles(specs, g, j + 1), count);
  }

  /** Where no image can land, the images leave the slot's ratio as it was. */
  lemma ImagesLeaveRatio(specs: seq<Spec>, g: Graph, names: seq<string>, slot: Slot)
    requires InjectImages(specs, g, names).Prepared? && !ImageLands(specs, g, slot, RatioAt(g, slot))
    ensures RatioAt(InjectImages(specs, g, names).graph, slot) == RatioAt(g, slot)
  {
    if specs != [] && names != [] {
      WhenImagesGoIn(specs, g, names, |specs|);
      assert Accepts(specs, g, |names|);
      if MultipleOn(specs, g, slot, |specs|) {
        var k :| 0 <= k < |specs| && Usable(specs[k], g) && specs[k].multiple && specs[k].slot == slot;
        FewerAreAccepted(specs, g, 1, |names|);
        assert !LandsAt(specs, g, slot, RatioAt(g, slot), k);
        MultipleWins(specs, g, names, slot, |specs|);
      } else {
        forall j | 0 <= j < |specs| && WritesGiven(specs, g, |names|, j) ensures specs[j].slot != slot {
          if specs[j].slot == slot {
            WriterLands(specs, g, |names|, slot, RatioAt(g, slot), j);
          }
        }
        NobodyWrites(specs, g, names, 0, |specs|, slot);
      }
    }
    hide ImagesIn, LeftFor, Canonical;
  }

  // ----- The reported ratio is the rendered one -----

  lemma WriteRaisesAlike(g: Graph, slot: Slot, value: Input, create: bool, nodes: Option<set<string>>)
    requires Write(g, slot, value, create).Some?
    ensures SeedingRaises(Write(g, slot, value, create).value, nodes) <==> SeedingRaises(g, nodes)
  {
    var h := Write(g, slot, value, create).value;
    assert forall n :: IsSeeded(h, nodes, n) <==> IsSeeded(g, nodes, n);
    assert forall n :: n in g && g[n].Node? ==> (h[n].inputs == BadInputs(true) <==> g[n].inputs == BadInputs(true));
    hide IsSeeded;
  }

  /** Prompt and images do not change what looking for seeds runs into. */
  lemma {:induction false} ImagesRaiseAlike(specs: seq<Spec>, g: Graph, names: seq<string>, n: nat, nodes: Option<set<string>>)
    requires n <= |specs| && ImagesIn(specs, g, names, n).Some?
    ensures SeedingRaises(ImagesIn(specs, g, names, n).value, nodes) <==> SeedingRaises(g, nodes)
    decreases n
  {
    hide SeedingRaises, Write, Taken, Value, LeftFor, Writes;
    if n > 0 {
      ImagesRaiseAlike(specs, g, names, n - 1, nodes);
      var left := LeftFor(specs, g, names, n - 1);
      if Writes(specs[n - 1], g, left) {
        WriteRaisesAlike(ImagesIn(specs, g, names, n - 1).value, specs[n - 1].slot,
                         Value(specs[n - 1], Taken(specs[n - 1], g, left)), false, nodes);
      }
    }
  }

  lemma InjectRaisesAlike(specs: seq<Spec>, g: Graph, names: seq<string>, nodes: Option<set<string>>)
    requires InjectImages(specs, g, names).Prepared?
    ensures SeedingRaises(InjectImages(specs, g, names).graph, nodes) <==> SeedingRaises(g, nodes)
  {
    if specs != [] && names != [] {
      ImagesRaiseAlike(specs, g, names, |specs|, nodes);
    }
    hide SeedingRaises, ImagesIn, LeftFor;
  }

  lemma SeedingKeepsRatios(g: Graph, nodes: Option<set<string>>, seeds: Seeds, slot: Slot)
    ensures RatioAt(Seeded(g, nodes, seeds), slot) == RatioAt(g, slot)
    ensures At(g, slot).Some? ==> At(Seeded(g, nodes, seeds), slot).Some?
  {
    hide Canonical;
  }

  function Prompted(meta: Meta, g: Graph, prompt: string): Option<Graph> {
    Write(g, meta.prompt, Text(prompt), true)
  }

  /** There is room for the prompt, and looking for seeds does not fail. */
  predicate CanPrepare(meta: Meta, g: Graph) {
    Prompted(meta, g, "").Some? && !SeedingRaises(g, meta.seedNodes)
  }

  /** Nothing but the ratio can have the last word in the ratio's slot: neither the prompt, nor the
      frame count, nor an image that differs from the ratio the graph was saved with. */
  predicate SlotIsOwn(meta: Meta, g: Graph) {
    && meta.prompt != RatioSlot(meta)
    && (meta.length != RatioSlot(meta) || meta.length.node == "")
    && (Prompted(meta, g, "").Some? ==>
          !ImageLands(meta.images, Prompted(meta, g, "").value, RatioSlot(meta), RatioAt(g, RatioSlot(meta))))
  }

  /** Whatever the prompt says, the same nodes have inputs. */
  lemma PromptsAlike(meta: Meta, g: Graph, prompt: string)
    ensures Prompted(meta, g, prompt).Some? <==> Prompted(meta, g, "").Some?
    ensures Prompted(meta, g, prompt).Some? ==>
              var p, q := Prompted(meta, g, prompt).value, Prompted(meta, g, "").value;
              p.Keys == q.Keys && forall node :: HasInputs(p, node) <==> HasInputs(q, node)
  {
  }

  lemma PreparesOnlyIf(record: Record, g: Graph, req: Request)
    ensures Prepare(record, g, req).Prepared? ==> CanPrepare(record.meta, g)
  {
    var meta := record.meta;
    if Prepare(record, g, req).Prepared? {
      PromptsAlike(meta, g, req.prompt);
      WriteRaisesAlike(g, meta.prompt, Text(req.prompt), true, meta.seedNodes);
      InjectRaisesAlike(meta.images, Prompted(meta, g, req.prompt).value, req.images, meta.seedNodes);
    }
    hide SeedingRaises, Write, InjectImages, Finish;
  }

  lemma {:induction false} SameCounts(specs: seq<Spec>, g: Graph, h: Graph, n: nat)
    requires g.Keys == h.Keys && n <= |specs|
    ensures Singles(specs, g, n) == Singles(specs, h, n) && (HasMultiple(specs, g, n) <==> HasMultiple(specs, h, n))
    decreases n
  {
    assert forall spec :: Usable(spec, g) <==> Usable(spec, h);
    if n > 0 {
      SameCounts(specs, g, h, n - 1);
    }
  }

  lemma SameLanding(specs: seq<Spec>, g: Graph, h: Graph, slot: Slot, standard: Option<string>)
    requires g.Keys == h.Keys && forall node :: HasInputs(g, node) <==> HasInputs(h, node)
    requires ImageLands(specs, g, slot, standard)
    ensures ImageLands(specs, h, slot, standard)
  {
    var k :| 0 <= k < |specs| && LandsAt(specs, g, slot, standard, k);
    forall count: nat | Accepts(specs, g, count) ensures Accepts(specs, h, count) {
      forall j | 0 <= j < |specs| && WritesGiven(specs, h, count, j) ensures HasInputs(h, specs[j].slot.node) {
        SameCounts(specs, g, h, j);
        assert WritesGiven(specs, g, count, j);
      }
    }
    SameCounts(specs, g, h, k);
    SameCounts(specs, g, h, k + 1);
    hide Accepts, Singles, HasMultiple;
    assert LandsAt(specs, h, slot, standard, k);
  }

  lemma WriteKeepsNodes(g: Graph, slot: Slot, value: Input, create: bool)
    requires Write(g, slot, value, create).Some?
    ensures Write(g, slot, value, create).value.Keys == g.Keys
  {
  }

  /** Prompt, images and seeds leave the ratio that the graph was saved with. */
  lemma SavedRatioStands(record: Record, g: Graph, req: Request, prompted: Graph, imaged: Graph)
    requires SlotIsOwn(record.meta, g) && At(g, RatioSlot(record.meta)).Some?
    requires Prompted(record.meta, g, req.prompt) == Some(prompted)
    requires InjectImages(record.meta.images, prompted, req.images) == Prepared(imaged)
    ensures var seeded := Seeded(imaged, record.meta.seedNodes, req.seeds);
            && RatioAt(seeded, RatioSlot(record.meta)) == RatioAt(g, RatioSlot(record.meta))
            && At(seeded, RatioSlot(record.meta)).Some?
  {
    var meta := record.meta;
    var slot := RatioSlot(meta);
    WriteOther(g, meta.prompt, Text(req.prompt), true, slot);
    assert At(prompted, slot) == At(g, slot) && RatioAt(prompted, slot) == RatioAt(g, slot);
    PromptsAlike(meta, g, req.prompt);
    hide Write, At, Canonical;
    if ImageLands(meta.images, prompted, slot, RatioAt(g, slot)) {
      SameLanding(meta.images, prompted, Prompted(meta, g, "").value, slot, RatioAt(g, slot));
    }
    ImagesLeaveRatio(meta.images, prompted, req.images, slot);
    if meta.images != [] && req.images != [] {
      InputsStay(meta.images, prompted, req.images, |meta.images|);
    }
    SeedingKeepsRatios(imaged, meta.seedNodes, req.seeds, slot);
  }

  lemma OptionsAreScanned(meta: Meta, g: Graph)
    requires Scanned(meta, Some(g)).options != []
    ensures IsMenu(Scanned(meta, Some(g)).options) && At(g, RatioSlot(meta)).Some?
    ensures Scanned(meta, Some(g)).standard == RatioAt(g, RatioSlot(meta))
  {
    ParsedIsMenu(meta.ratios.value.value);
  }

  lemma SnappedIsSpelled(requested: Declared, options: seq<Ratio>)
    requires IsMenu(options) && Snap(requested, options).Some?
    ensures Canonical(Str(Snap(requested, options).value.literal)) == Some(Spelled(Snap(requested, options).value))
  {
    var chosen := Snap(requested, options).value;
    var i :| 0 <= i < |options| && options[i] == chosen;
    assert Parse(Str(options[i].literal)) == Some(options[i]);
    hide Snap;
  }

  /** The ratio a response reports is the one the prepared graph renders, for every request, when
      the declaration passed the scan, the graph is unchanged and the slot is the ratio's own. */
  lemma ReportedIsRendered(meta: Meta, g: Graph, req: Request)
    requires Scanned(meta, Some(g)).options != [] && SlotIsOwn(meta, g)
    requires Prepare(Scanned(meta, Some(g)), g, req).Prepared?
    ensures RatioAt(Prepare(Scanned(meta, Some(g)), g, req).graph, RatioSlot(meta)) == Effective(Scanned(meta, Some(g)), req.ratio)
  {
    var record := Scanned(meta, Some(g));
    var slot := RatioSlot(meta);
    OptionsAreScanned(meta, g);
    hide Parse, Spelled, Snap, Resolve, Scanned, IsMenu;
    var prompted := Prompted(meta, g, req.prompt).value;
    var imaged := InjectImages(meta.images, prompted, req.images).graph;
    SavedRatioStands(record, g, req, prompted, imaged);
    var seeded := Seeded(imaged, meta.seedNodes, req.seeds);
    var chosen := Snap(req.ratio, record.options);
    RatioStep(record, seeded, req.ratio);
    var sized := InjectRatio(record, seeded, req.ratio).value;
    if meta.length.node != "" && meta.length.node in sized && req.length > 0 {
      WriteOther(sized, meta.length, Num(req.length), false, slot);
    }
    hide Write, At, InjectImages, Seeded, Canonical, InjectRatio;
  }

  lemma RatioStep(record: Record, g: Graph, requested: Declared)
    requires IsMenu(record.options) && At(g, RatioSlot(record.meta)).Some?
    ensures InjectRatio(record, g, requested).Some?
    ensures RatioAt(InjectRatio(record, g, requested).value, RatioSlot(record.meta))
            == (if Snap(requested, record.options).Some? then Some(Spelled(Snap(requested, record.options).value))
                else RatioAt(g, RatioSlot(record.meta)))
  {
    hide Snap, Canonical, IsMenu, Spelled;
    var chosen := Snap(requested, record.options);
    if chosen.Some? {
      SnappedIsSpelled(requested, record.options);
      WriteOther(g, RatioSlot(record.meta), Text(chosen.value.literal), true, RatioSlot(record.meta));
    }
  }

  function NoSeeds(node: string, field: string): int {
    0
  }

  function Bare(prompt: string): Request {
    Request(prompt, [], 0, 0, NotAString, 0, NoSeeds)
  }

  /** A bare request leaves its prompt where it was written. */
  lemma PromptStays(record: Record, g: Graph, prompt: string)
    requires record.options != [] && At(g, record.meta.prompt).Some? && !SeedingRaises(g, record.meta.seedNodes)
    ensures var outcome := Prepare(record, g, Bare(prompt));
            outcome.Prepared? && RatioAt(outcome.graph, record.meta.prompt) == Canonical(Str(prompt))
  {
    var slot := record.meta.prompt;
    var prompted := Write(g, slot, Text(prompt), true);
    WriteOther(g, slot, Text(prompt), true, slot);
    WriteRaisesAlike(g, slot, Text(prompt), true, record.meta.seedNodes);
    SeedingKeepsRatios(prompted.value, record.meta.seedNodes, NoSeeds, slot);
    assert Snap(NotAString, record.options).None?;
    hide Write, At, Seeded, SeedingRaises, Canonical, Parse, Snap;
  }

  /** A request whose prompt lands in the ratio's slot and is not what is reported. */
  lemma PromptInTheSlot(meta: Meta, g: Graph) returns (req: Request)
    requires Scanned(meta, Some(g)).options != [] && meta.prompt == RatioSlot(meta) && !SeedingRaises(g, meta.seedNodes)
    ensures var record := Scanned(meta, Some(g));
            && Prepare(record, g, req).Prepared?
            && RatioAt(Prepare(record, g, req).graph, RatioSlot(meta)) != Effective(record, req.ratio)
  {
    var record := Scanned(meta, Some(g));
    OptionsAreScanned(meta, g);
    var prompt := if record.standard.Some? then "" else "1:1";
    OneToOne();
    req := Bare(prompt);
    assert Effective(record, req.ratio) == record.standard;
    assert record.meta == meta;
    hide *;
    PromptStays(record, g, prompt);
  }

  /** A request whose frame count lands there. */
  lemma LengthInTheSlot(meta: Meta, g: Graph) returns (req: Request)
    requires Scanned(meta, Some(g)).options != [] && meta.length == RatioSlot(meta) && meta.length.node != ""
    requires CanPrepare(meta, g)
    ensures var record := Scanned(meta, Some(g));
            && Prepare(record, g, req).Prepared?
            && RatioAt(Prepare(record, g, req).graph, RatioSlot(meta)) != Effective(record, req.ratio)
  {
    var record := Scanned(meta, Some(g));
    OptionsAreScanned(meta, g);
    var wanted := Str(record.options[0].literal);
    assert Parse(wanted) == Some(record.options[0]);
    req := Request("", [], 0, 0, wanted, 1, NoSeeds);
    hide Resolve, Scanned, Parse, Spelled;
    var slot := RatioSlot(meta);
    var prompted := Write(g, meta.prompt, Text(""), true).value;
    WriteOther(g, meta.prompt, Text(""), true, slot);
    WriteRaisesAlike(g, meta.prompt, Text(""), true, meta.seedNodes);
    assert At(prompted, slot).Some?;
    SeedingKeepsRatios(prompted, meta.seedNodes, NoSeeds, slot);
    var seeded := Seeded(prompted, meta.seedNodes, NoSeeds);
    RatioStep(record, seeded, wanted);
    var sized := InjectRatio(record, seeded, wanted).value;
    SlotStays(record, seeded, wanted);
    assert Write(sized, slot, Num(1), false).Some?;
    WriteOther(sized, slot, Num(1), false, slot);
    hide Write, At, Seeded, SeedingRaises, InjectRatio, IsMenu;
  }

  lemma SlotStays(record: Record, g: Graph, requested: Declared)
    requires At(g, RatioSlot(record.meta)).Some? && InjectRatio(record, g, requested).Some?
    ensures At(InjectRatio(record, g, requested).value, RatioSlot(record.meta)).Some?
  {
    hide Snap;
  }

  /** A request whose images land there: as many as it takes for one of the slot's inputs to be the
      last to write. */
  lemma ImageInTheSlot(meta: Meta, g: Graph) returns (req: Request)
    requires Scanned(meta, Some(g)).options != [] && CanPrepare(meta, g)
    requires ImageLands(meta.images, Prompted(meta, g, "").value, RatioSlot(meta), RatioAt(g, RatioSlot(meta)))
    ensures var record := Scanned(meta, Some(g));
            && Prepare(record, g, req).Prepared?
            && RatioAt(Prepare(record, g, req).graph, RatioSlot(meta)) != Effective(record, req.ratio)
  {
    var record := Scanned(meta, Some(g));
    OptionsAreScanned(meta, g);
    var slot, prompted := RatioSlot(meta), Prompted(meta, g, "").value;
    var k :| 0 <= k < |meta.images| && LandsAt(meta.images, prompted, slot, record.standard, k);
    var names := ImagesThatLand(meta.images, prompted, slot, record.standard, k);
    req := Request("", names, 0, 0, NotAString, 0, NoSeeds);
    var imaged := InjectImages(meta.images, prompted, names).graph;
    WriteRaisesAlike(g, meta.prompt, Text(""), true, meta.seedNodes);
    InjectRaisesAlike(meta.images, prompted, names, meta.seedNodes);
    SeedingKeepsRatios(imaged, meta.seedNodes, NoSeeds, slot);
    assert Snap(NotAString, record.options).None? by {
      OneToOne();
    }
    hide At, InjectImages, Seeded, SeedingRaises, Canonical, Parse, Resolve, Scanned, LandsAt;
  }

  /** Reporting is truthful for all requests exactly when nothing else has the last word in the
      ratio's slot, or no request can be prepared at all. */
  lemma TruthfulExactlyWhen(meta: Meta, g: Graph)
    requires Scanned(meta, Some(g)).options != []
    ensures (forall req: Request :: Prepare(Scanned(meta, Some(g)), g, req).Prepared? ==>
               RatioAt(Prepare(Scanned(meta, Some(g)), g, req).graph, RatioSlot(meta)) == Effective(Scanned(meta, Some(g)), req.ratio))
            <==> !CanPrepare(meta, g) || SlotIsOwn(meta, g)
  {
    if !CanPrepare(meta, g) {
      forall req: Request ensures !Prepare(Scanned(meta, Some(g)), g, req).Prepared? {
        PreparesOnlyIf(Scanned(meta, Some(g)), g, req);
      }
    } else if SlotIsOwn(meta, g) {
      forall req: Request | Prepare(Scanned(meta, Some(g)), g, req).Prepared?
        ensures RatioAt(Prepare(Scanned(meta, Some(g)), g, req).graph, RatioSlot(meta))
                == Effective(Scanned(meta, Some(g)), req.ratio)
      {
        ReportedIsRendered(meta, g, req);
      }
    } else if meta.prompt == RatioSlot(meta) {
      var req := PromptInTheSlot(meta, g);
    } else if meta.length == RatioSlot(meta) && meta.length.node != "" {
      var req := LengthInTheSlot(meta, g);
    } else {
      var req := ImageInTheSlot(meta, g);
    }
    hide Prepare, RatioAt, Effective, Scanned, Write;
  }

  // ----- The images in the finished workflow -----

  /** A slot that neither the ratio, nor the size, nor the frame count is written to. */
  predicate Spared(record: Record, slot: Slot) {
    var meta := record.meta;
    && (if record.options != [] then slot != RatioSlot(meta)
        else slot != Slot(meta.dimensionsNode, meta.widthField) && slot != Slot(meta.dimensionsNode, meta.heightField))
    && slot != meta.length
  }

  lemma DimensionLeaves(g: Graph, slot: Slot, size: int, other: Slot)
    requires InjectDimension(g, slot, size).Some? && other != slot
    ensures At(InjectDimension(g, slot, size).value, other) == At(g, other)
  {
    if slot.node != "" && slot.node in g && size > 0 {
      WriteOther(g, slot, Num(size), false, other);
    }
  }

  lemma FinishLeaves(record: Record, g: Graph, req: Request, slot: Slot)
    requires Finish(record, g, req).Prepared? && Spared(record, slot)
    ensures At(Finish(record, g, req).graph, slot) == At(g, slot)
  {
    var meta := record.meta;
    var sized := if record.options != [] then InjectRatio(record, g, req.ratio) else InjectSize(record, g, req.width, req.height);
    if record.options != [] {
      var chosen := Snap(req.ratio, record.options);
      if chosen.Some? && RatioSlot(meta).node in g && g[RatioSlot(meta).node].Node? {
        WriteOther(g, RatioSlot(meta), Text(chosen.value.literal), true, slot);
      }
    } else {
      var wide := InjectDimension(g, Slot(meta.dimensionsNode, meta.widthField), req.width).value;
      DimensionLeaves(g, Slot(meta.dimensionsNode, meta.widthField), req.width, slot);
      DimensionLeaves(wide, Slot(meta.dimensionsNode, meta.heightField), req.height, slot);
    }
    DimensionLeaves(sized.value, meta.length, req.length, slot);
    hide At, Write, InjectDimension, Snap;
  }

  lemma SeedingKeepsFiles(g: Graph, nodes: Option<set<string>>, seeds: Seeds, slot: Slot)
    requires At(g, slot).Some? && !At(g, slot).value.Num?
    ensures At(Seeded(g, nodes, seeds), slot) == At(g, slot)
  {
  }

  /** The same of the workflow that is submitted: every image is in it once, in declared order,
      where the ratio, the size and the frame count are written elsewhere. */
  lemma ImagesReachTheWorkflow(record: Record, g: Graph, req: Request)
    requires Prepare(record, g, req).Prepared? && record.meta.images != [] && req.images != []
    requires var specs := record.meta.images;
             DistinctSlots(specs, g) && forall k :: 0 <= k < |specs| && Usable(specs[k], g) ==> Spared(record, specs[k].slot)
    ensures Prompted(record.meta, g, req.prompt).Some?
    ensures var specs, prompted := record.meta.images, Prompted(record.meta, g, req.prompt).value;
            && Handed(specs, prompted, req.images, |specs|) == req.images
            && forall k :: 0 <= k < |specs| && Writes(specs[k], prompted, LeftFor(specs, prompted, req.images, k)) ==>
                 At(Prepare(record, g, req).graph, specs[k].slot)
                 == Some(Value(specs[k], Taken(specs[k], prompted, LeftFor(specs, prompted, req.images, k))))
  {
    var meta, specs := record.meta, record.meta.images;
    var prompted := Prompted(meta, g, req.prompt).value;
    WriteKeepsNodes(g, meta.prompt, Text(req.prompt), true);
    assert forall spec :: Usable(spec, prompted) <==> Usable(spec, g);
    var imaged := InjectImages(specs, prompted, req.images).graph;
    var seeded := Seeded(imaged, meta.seedNodes, req.seeds);
    assert Prepare(record, g, req) == Finish(record, seeded, req);
    ImagesAreConserved(specs, prompted, req.images);
    hide Finish, Write, Seeded, InjectImages, Handed, LeftFor, Spared, At;
    forall k | 0 <= k < |specs| && Writes(specs[k], prompted, LeftFor(specs, prompted, req.images, k))
      ensures At(Prepare(record, g, req).graph, specs[k].slot)
              == Some(Value(specs[k], Taken(specs[k], prompted, LeftFor(specs, prompted, req.images, k))))
    {
      SeedingKeepsFiles(imaged, meta.seedNodes, req.seeds, specs[k].slot);
      FinishLeaves(record, seeded, req, specs[k].slot);
    }
  }
}
