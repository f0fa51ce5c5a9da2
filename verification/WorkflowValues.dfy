/** What every input of a prepared workflow holds: whoever writes last. */
module WorkflowValues {
  import opened AspectRatio
  import opened Options
  import opened Strings
  import opened Workflows

  // ----- Images -----

  /** The images that are left for the `k`-th input: those behind what the single inputs before it
      have taken, one each, and none behind an input that takes them all. */
  function Remaining(specs: seq<Spec>, g: Graph, names: seq<string>, k: nat): seq<string>
    requires k <= |specs|
  {
    if HasMultiple(specs, g, k) || |names| <= Singles(specs, g, k) then [] else names[Singles(specs, g, k)..]
  }

  lemma {:induction false} LeftIsRemaining(specs: seq<Spec>, g: Graph, names: seq<string>, k: nat)
    requires k <= |specs|
    ensures LeftFor(specs, g, names, k) == Remaining(specs, g, names, k)
    decreases k
  {
    if k > 0 {
      LeftIsRemaining(specs, g, names, k - 1);
      assert HasMultiple(specs, g, k) <==> HasMultiple(specs, g, k - 1) || (Usable(specs[k - 1], g) && specs[k - 1].multiple);
    }
  }

  /** What the last of the first `n` image inputs that are written puts into the slot: all that
      remain, if it takes several, and else the first that remains. */
  function ImagePut(specs: seq<Spec>, g: Graph, names: seq<string>, n: nat, slot: Slot): Option<Input>
    requires n <= |specs|
  {
    if n == 0 then None
    else
      var spec, left := specs[n - 1], Remaining(specs, g, names, n - 1);
      if spec.slot != slot || slot.node == "" || slot.field == "" || slot.node !in g then ImagePut(specs, g, names, n - 1, slot)
      else if spec.multiple then Some(Names(left, spec.dumped))
      else if left != [] then Some(Text(left[0]))
      else ImagePut(specs, g, names, n - 1, slot)
  }

  lemma {:induction false} ImagesArePut(specs: seq<Spec>, g: Graph, names: seq<string>, n: nat, slot: Slot)
    requires n <= |specs| && ImagesIn(specs, g, names, n).Some?
    ensures At(ImagesIn(specs, g, names, n).value, slot)
            == if ImagePut(specs, g, names, n, slot).Some? then ImagePut(specs, g, names, n, slot) else At(g, slot)
    decreases n
  {
    if n > 0 {
      hide At, Remaining, ImagesIn, LeftFor;
      ImageStep(specs, g, names, n, slot);
      ImagesArePut(specs, g, names, n - 1, slot);
      LeftIsRemaining(specs, g, names, n - 1);
    }
  }

  // ----- Which nodes there are -----

  /** The same nodes, and the same of them are objects. */
  ghost predicate SameNodes(g: Graph, h: Graph) {
    h.Keys == g.Keys && forall n :: n in g ==> (h[n].Node? <==> g[n].Node?)
  }

  lemma WriteKeepsKinds(g: Graph, slot: Slot, value: Input, create: bool)
    requires Write(g, slot, value, create).Some?
    ensures SameNodes(g, Write(g, slot, value, create).value)
  {
  }

  lemma {:induction false} ImagesKeepKinds(specs: seq<Spec>, g: Graph, names: seq<string>, n: nat)
    requires n <= |specs| && ImagesIn(specs, g, names, n).Some?
    ensures SameNodes(g, ImagesIn(specs, g, names, n).value)
    decreases n
  {
    if n > 0 {
      ImagesKeepKinds(specs, g, names, n - 1);
      var left := LeftFor(specs, g, names, n - 1);
      var before := ImagesIn(specs, g, names, n - 1).value;
      if Writes(specs[n - 1], g, left) {
        WriteKeepsKinds(before, specs[n - 1].slot, Value(specs[n - 1], Taken(specs[n - 1], g, left)), false);
      }
      hide Write, Writes, Value, Taken, LeftFor;
    }
  }

  // ----- Stage by stage -----

  lemma SeededAt(g: Graph, nodes: Option<set<string>>, seeds: Seeds, slot: Slot)
    ensures SameNodes(g, Seeded(g, nodes, seeds))
    ensures At(Seeded(g, nodes, seeds), slot) ==
            if At(g, slot).Some? && At(g, slot).value.Num? && (slot.field == "seed" || slot.field == "noise_seed")
               && (nodes.None? || slot.node in nodes.value)
            then Some(Num(seeds(slot.node, slot.field))) else At(g, slot)
  {
  }

  lemma DimensionAt(g: Graph, slot: Slot, size: int, other: Slot)
    requires InjectDimension(g, slot, size).Some?
    ensures SameNodes(g, InjectDimension(g, slot, size).value)
    ensures At(InjectDimension(g, slot, size).value, other) ==
            if other == slot && slot.node != "" && slot.node in g && size > 0 then Some(Num(size)) else At(g, other)
  {
    if slot.node != "" && slot.node in g && size > 0 {
      WriteOther(g, slot, Num(size), false, other);
      WriteKeepsKinds(g, slot, Num(size), false);
    }
    hide At, Write;
  }

  lemma RatioAtSlot(record: Record, g: Graph, requested: Declared, other: Slot)
    requires InjectRatio(record, g, requested).Some?
    ensures SameNodes(g, InjectRatio(record, g, requested).value)
    ensures var slot, chosen := RatioSlot(record.meta), Snap(requested, record.options);
            At(InjectRatio(record, g, requested).value, other) ==
            if other == slot && slot.node in g && g[slot.node].Node? && chosen.Some? then Some(Text(chosen.value.literal)) else At(g, other)
  {
    hide Snap;
    var slot, chosen := RatioSlot(record.meta), Snap(requested, record.options);
    if slot.node in g && g[slot.node].Node? && chosen.Some? {
      WriteOther(g, slot, Text(chosen.value.literal), true, other);
      WriteKeepsKinds(g, slot, Text(chosen.value.literal), true);
    }
    hide At, Write;
  }

  lemma SizeAt(record: Record, g: Graph, width: int, height: int, other: Slot)
    requires InjectSize(record, g, width, height).Some?
    ensures SameNodes(g, InjectSize(record, g, width, height).value)
    ensures var meta := record.meta;
            At(InjectSize(record, g, width, height).value, other) ==
            if other == Slot(meta.dimensionsNode, meta.heightField) && other.node != "" && other.node in g && height > 0 then Some(Num(height))
            else if other == Slot(meta.dimensionsNode, meta.widthField) && other.node != "" && other.node in g && width > 0 then Some(Num(width))
            else At(g, other)
  {
    var meta := record.meta;
    var wide := InjectDimension(g, Slot(meta.dimensionsNode, meta.widthField), width).value;
    DimensionAt(g, Slot(meta.dimensionsNode, meta.widthField), width, other);
    DimensionAt(wide, Slot(meta.dimensionsNode, meta.heightField), height, other);
    hide At, InjectDimension;
  }

  // ----- The whole -----

  /** What a slot holds before seeds, sizes and the frame count: an image, or else the prompt, or
      else what the graph was saved with. */
  function Supplied(record: Record, g: Graph, req: Request, slot: Slot): Option<Input> {
    var specs := record.meta.images;
    if req.images != [] && ImagePut(specs, g, req.images, |specs|, slot).Some? then ImagePut(specs, g, req.images, |specs|, slot)
    else if slot == record.meta.prompt then Some(Text(req.prompt))
    else At(g, slot)
  }

  lemma SuppliedIsIn(record: Record, g: Graph, req: Request, prompted: Graph, imaged: Graph, slot: Slot)
    requires Write(g, record.meta.prompt, Text(req.prompt), true) == Some(prompted)
    requires InjectImages(record.meta.images, prompted, req.images) == Prepared(imaged)
    ensures SameNodes(g, imaged) && At(imaged, slot) == Supplied(record, g, req, slot)
  {
    var specs := record.meta.images;
    WriteOther(g, record.meta.prompt, Text(req.prompt), true, slot);
    WriteKeepsKinds(g, record.meta.prompt, Text(req.prompt), true);
    if specs != [] && req.images != [] {
      ImagesKeepKinds(specs, prompted, req.images, |specs|);
      ImagesArePut(specs, prompted, req.images, |specs|, slot);
      SamePut(specs, g, prompted, req.images, |specs|, slot);
    }
    hide At, Write;
  }

  lemma SameRemaining(specs: seq<Spec>, g: Graph, h: Graph, names: seq<string>, k: nat)
    requires g.Keys == h.Keys && k <= |specs|
    ensures Remaining(specs, g, names, k) == Remaining(specs, h, names, k)
  {
    hide Singles, HasMultiple;
    SameCounts(specs, g, h, k);
  }

  lemma {:induction false} SamePut(specs: seq<Spec>, g: Graph, h: Graph, names: seq<string>, n: nat, slot: Slot)
    requires g.Keys == h.Keys && n <= |specs|
    ensures ImagePut(specs, g, names, n, slot) == ImagePut(specs, h, names, n, slot)
    decreases n
  {
    if n > 0 {
      hide Remaining;
      SameRemaining(specs, g, h, names, n - 1);
      SamePut(specs, g, h, names, n - 1, slot);
      assert slot.node in g <==> slot.node in h;
    }
  }

  /** The main result: every input of a prepared workflow, by who writes it last. The frame count
      comes after the ratio or the size, the size's height after its width, and all of them after
      the seeds, which are drawn for every numeric seed of a seeded node; what is left is an image,
      the prompt or what the graph was saved with. No node comes or goes. */
  lemma EveryInputTells(record: Record, g: Graph, req: Request, slot: Slot)
    requires Prepare(record, g, req).Prepared?
    ensures Prepare(record, g, req).graph.Keys == g.Keys
    ensures var meta, chosen, supplied := record.meta, Snap(req.ratio, record.options), Supplied(record, g, req, slot);
            At(Prepare(record, g, req).graph, slot) ==
            if slot == meta.length && slot.node != "" && slot.node in g && req.length > 0 then Some(Num(req.length))
            else if record.options != [] && slot == RatioSlot(meta) && slot.node in g && g[slot.node].Node? && chosen.Some? then
              Some(Text(chosen.value.literal))
            else if record.options == [] && slot == Slot(meta.dimensionsNode, meta.heightField) && slot.node != "" && slot.node in g
                    && req.height > 0 then
              Some(Num(req.height))
            else if record.options == [] && slot == Slot(meta.dimensionsNode, meta.widthField) && slot.node != "" && slot.node in g
                    && req.width > 0 then
              Some(Num(req.width))
            else if supplied.Some? && supplied.value.Num? && (slot.field == "seed" || slot.field == "noise_seed")
                    && (meta.seedNodes.None? || slot.node in meta.seedNodes.value) then
              Some(Num(req.seeds(slot.node, slot.field)))
            else supplied
  {
    var meta := record.meta;
    var prompted := Write(g, meta.prompt, Text(req.prompt), true).value;
    var imaged := InjectImages(meta.images, prompted, req.images).graph;
    var seeded := Seeded(imaged, meta.seedNodes, req.seeds);
    SuppliedIsIn(record, g, req, prompted, imaged, slot);
    SeededAt(imaged, meta.seedNodes, req.seeds, slot);
    FinishAt(record, seeded, req, slot);
    hide At, Write, InjectImages, Seeded, Supplied, Snap, Finish;
  }

  lemma FinishAt(record: Record, g: Graph, req: Request, slot: Slot)
    requires Finish(record, g, req).Prepared?
    ensures Finish(record, g, req).graph.Keys == g.Keys
    ensures var meta, chosen := record.meta, Snap(req.ratio, record.options);
            At(Finish(record, g, req).graph, slot) ==
            if slot == meta.length && slot.node != "" && slot.node in g && req.length > 0 then Some(Num(req.length))
            else if record.options != [] && slot == RatioSlot(meta) && slot.node in g && g[slot.node].Node? && chosen.Some? then
              Some(Text(chosen.value.literal))
            else if record.options == [] && slot == Slot(meta.dimensionsNode, meta.heightField) && slot.node != "" && slot.node in g
                    && req.height > 0 then
              Some(Num(req.height))
            else if record.options == [] && slot == Slot(meta.dimensionsNode, meta.widthField) && slot.node != "" && slot.node in g
                    && req.width > 0 then
              Some(Num(req.width))
            else At(g, slot)
  {
    var meta := record.meta;
    var sized := if record.options != [] then InjectRatio(record, g, req.ratio) else InjectSize(record, g, req.width, req.height);
    if record.options != [] {
      RatioAtSlot(record, g, req.ratio, slot);
    } else {
      SizeAt(record, g, req.width, req.height, slot);
    }
    DimensionAt(sized.value, meta.length, req.length, slot);
    hide At, InjectDimension, InjectRatio, InjectSize, Snap;
  }

  // ----- When a workflow can be prepared -----

  /** The node takes a value: it has inputs, or may be given some. */
  predicate Takes(g: Graph, node: string, create: bool) {
    node in g && g[node].Node? && (g[node].inputs.Inputs? || (create && g[node].inputs.NoInputs?))
  }

  /** The second graph takes values where the first does, and at one more node. */
  ghost predicate TakesToo(g: Graph, h: Graph, node: string) {
    SameNodes(g, h) && forall n, create :: Takes(h, n, create) <==> Takes(g, n, create) || n == node
  }

  ghost predicate TakesAlike(g: Graph, h: Graph) {
    SameNodes(g, h) && forall n, create :: Takes(h, n, create) <==> Takes(g, n, create)
  }

  lemma WriteTakes(g: Graph, slot: Slot, value: Input, create: bool)
    ensures Write(g, slot, value, create).Some? <==> Takes(g, slot.node, create)
    ensures Write(g, slot, value, create).Some? ==> TakesToo(g, Write(g, slot, value, create).value, slot.node)
    ensures !create && Write(g, slot, value, create).Some? ==> TakesAlike(g, Write(g, slot, value, create).value)
  {
  }

  lemma {:induction false} ImagesTake(specs: seq<Spec>, g: Graph, names: seq<string>, n: nat)
    requires n <= |specs| && ImagesIn(specs, g, names, n).Some?
    ensures TakesAlike(g, ImagesIn(specs, g, names, n).value)
    decreases n
  {
    if n > 0 {
      ImagesTake(specs, g, names, n - 1);
      var left := LeftFor(specs, g, names, n - 1);
      var before := ImagesIn(specs, g, names, n - 1).value;
      if Writes(specs[n - 1], g, left) {
        WriteTakes(before, specs[n - 1].slot, Value(specs[n - 1], Taken(specs[n - 1], g, left)), false);
      }
      hide Write, Writes, Value, Taken, LeftFor, Takes;
    }
  }

  lemma SeedsTake(g: Graph, nodes: Option<set<string>>, seeds: Seeds)
    ensures TakesAlike(g, Seeded(g, nodes, seeds))
  {
  }

  /** The images find room: each input that is written takes a value, and none is left over. */
  predicate ImagesFit(specs: seq<Spec>, g: Graph, count: nat) {
    specs == [] || count == 0
    || (Accepts(specs, g, count) && (HasMultiple(specs, g, |specs|) || count <= Singles(specs, g, |specs|)))
  }

  lemma ImagesFitExactly(specs: seq<Spec>, g: Graph, names: seq<string>)
    ensures InjectImages(specs, g, names).Prepared? <==> ImagesFit(specs, g, |names|)
    ensures InjectImages(specs, g, names).Prepared? ==> TakesAlike(g, InjectImages(specs, g, names).graph)
  {
    if specs != [] && names != [] {
      WhenImagesGoIn(specs, g, names, |specs|);
      HowManyLeft(specs, g, names, |specs|);
      if ImagesIn(specs, g, names, |specs|).Some? {
        ImagesTake(specs, g, names, |specs|);
      }
    }
    hide ImagesIn, LeftFor, HasMultiple, Singles, AcceptsUpTo, Takes;
  }

  /** No seeded node has inputs in which looking for a seed raises. */
  predicate SeedsCanBeSought(g: Graph, nodes: Option<set<string>>) {
    forall n :: n in g && g[n].Node? && (nodes.None? || n in nodes.value) ==> g[n].inputs != BadInputs(true)
  }

  predicate DimensionFits(g: Graph, node: string, size: int) {
    node == "" || node !in g || size <= 0 || Takes(g, node, false)
  }

  lemma DimensionTakes(g: Graph, slot: Slot, size: int)
    ensures InjectDimension(g, slot, size).Some? <==> DimensionFits(g, slot.node, size)
    ensures InjectDimension(g, slot, size).Some? ==> TakesAlike(g, InjectDimension(g, slot, size).value)
  {
    WriteTakes(g, slot, Num(size), false);
    hide Write, Takes;
  }

  predicate RatioFits(g: Graph, node: string, chosen: Option<Ratio>) {
    node !in g || g[node].NotANode? || chosen.None? || Takes(g, node, true)
  }

  lemma RatioTakes(record: Record, g: Graph, requested: Declared)
    ensures var node, chosen := RatioSlot(record.meta).node, Snap(requested, record.options);
            && (InjectRatio(record, g, requested).Some? <==> RatioFits(g, node, chosen))
            && (InjectRatio(record, g, requested).Some? ==>
                  if node in g && g[node].Node? && chosen.Some? then TakesToo(g, InjectRatio(record, g, requested).value, node)
                  else TakesAlike(g, InjectRatio(record, g, requested).value))
  {
    hide Snap;
    var slot, chosen := RatioSlot(record.meta), Snap(requested, record.options);
    if chosen.Some? {
      WriteTakes(g, slot, Text(chosen.value.literal), true);
    }
    hide Write, Takes;
  }

  /** Sizes and the frame count find room, in a graph that has the prompt. */
  predicate RestFits(record: Record, g: Graph, req: Request) {
    var meta, chosen := record.meta, Snap(req.ratio, record.options);
    if record.options != [] then
      && RatioFits(g, RatioSlot(meta).node, chosen)
      && (DimensionFits(g, meta.length.node, req.length)
          || (meta.length.node == RatioSlot(meta).node && g[meta.length.node].Node? && chosen.Some?))
    else
      && DimensionFits(g, meta.dimensionsNode, req.width) && DimensionFits(g, meta.dimensionsNode, req.height)
      && DimensionFits(g, meta.length.node, req.length)
  }

  lemma FinishExactly(record: Record, g: Graph, req: Request)
    ensures Finish(record, g, req).Prepared? <==> RestFits(record, g, req)
  {
    var meta := record.meta;
    if record.options != [] {
      RatioTakes(record, g, req.ratio);
      var sized := InjectRatio(record, g, req.ratio);
      if sized.Some? {
        DimensionTakes(sized.value, meta.length, req.length);
      }
    } else {
      DimensionTakes(g, Slot(meta.dimensionsNode, meta.widthField), req.width);
      var wide := InjectDimension(g, Slot(meta.dimensionsNode, meta.widthField), req.width);
      if wide.Some? {
        DimensionTakes(wide.value, Slot(meta.dimensionsNode, meta.heightField), req.height);
        var sized := InjectDimension(wide.value, Slot(meta.dimensionsNode, meta.heightField), req.height);
        if sized.Some? {
          DimensionTakes(sized.value, meta.length, req.length);
        }
      }
    }
    hide InjectDimension, InjectRatio, Snap;
  }

  lemma RestFitsAlike(record: Record, g: Graph, h: Graph, req: Request)
    requires TakesAlike(g, h)
    ensures RestFits(record, g, req) <==> RestFits(record, h, req)
  {
    hide Takes, Snap;
  }

  lemma SeekingAlike(g: Graph, nodes: Option<set<string>>)
    ensures SeedingRaises(g, nodes) <==> !SeedsCanBeSought(g, nodes)
  {
  }

  /** A workflow is prepared exactly when the prompt's node is there and takes it, the images fit,
      looking for seeds does not raise, and the ratio or the sizes and the frame count find room;
      the one refusal that names the node is for one that is not there. */
  lemma PreparesExactlyWhen(record: Record, g: Graph, req: Request)
    ensures Prepare(record, g, req) == NoPromptNode <==> record.meta.prompt.node !in g
    ensures Prepare(record, g, req).Prepared? <==>
              && Takes(g, record.meta.prompt.node, true)
              && var prompted := Prompted(record.meta, g, req.prompt);
              && prompted.Some? && TakesToo(g, prompted.value, record.meta.prompt.node)
              && ImagesFit(record.meta.images, prompted.value, |req.images|)
              && SeedsCanBeSought(g, record.meta.seedNodes)
              && RestFits(record, prompted.value, req)
  {
    var meta := record.meta;
    WriteTakes(g, meta.prompt, Text(req.prompt), true);
    if Prompted(meta, g, req.prompt).Some? {
      var prompted := Prompted(meta, g, req.prompt).value;
      WriteRaisesAlike(g, meta.prompt, Text(req.prompt), true, meta.seedNodes);
      ImagesFitExactly(meta.images, prompted, req.images);
      if InjectImages(meta.images, prompted, req.images).Prepared? {
        var imaged := InjectImages(meta.images, prompted, req.images).graph;
        InjectRaisesAlike(meta.images, prompted, req.images, meta.seedNodes);
        SeekingAlike(g, meta.seedNodes);
        SeedsTake(imaged, meta.seedNodes, req.seeds);
        var seeded := Seeded(imaged, meta.seedNodes, req.seeds);
        FinishExactly(record, seeded, req);
        RestFitsAlike(record, prompted, imaged, req);
        RestFitsAlike(record, imaged, seeded, req);
      }
    }
    hide Write, InjectImages, Seeded, Finish, ImagesFit, RestFits, SeedingRaises, SeedsCanBeSought, Takes, TakesAlike;
  }

  /** A declaration is offered exactly when it names a node, lists at least one ratio that parses,
      and the graph can be read and has the input; the menu is then all that parses, in order. */
  lemma OfferedExactlyWhen(meta: Meta, graph: Option<Graph>)
    ensures var declared := meta.ratioNode.Some? && meta.ratios.Some? && meta.ratios.value.Some?;
            && (Scanned(meta, graph).options != [] <==>
                  && declared && (exists d :: d in meta.ratios.value.value && Parse(d).Some?)
                  && graph.Some? && At(graph.value, Slot(meta.ratioNode.value, meta.ratioField)).Some?)
            && (Scanned(meta, graph).options != [] ==> Scanned(meta, graph).options == ParseAll(meta.ratios.value.value))
            && (Scanned(meta, graph).options == [] ==> Scanned(meta, graph).standard.None?)
  {
    hide Parse, At;
    if meta.ratios.Some? && meta.ratios.value.Some? {
      SomeParses(meta.ratios.value.value);
    }
    hide ParseAll;
  }

  lemma {:induction false} SomeParses(raw: seq<Declared>)
    ensures ParseAll(raw) != [] <==> exists d :: d in raw && Parse(d).Some?
    decreases |raw|
  {
    hide Parse;
    if raw != [] {
      var front, last := raw[..|raw| - 1], raw[|raw| - 1];
      assert raw == front + [last];
      SomeParses(front);
      if Parse(last).Some? && ParseAll(front) != [] {
        assert ParseAll(raw) != [];
      }
    }
  }
}
