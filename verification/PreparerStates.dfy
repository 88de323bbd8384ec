/**
 The preparer's tables as values and what ties them together: which job waits for which
 image and layer, and how a job's own record relates to the sequential preparation.
 */
module PreparerStates {
  import opened Wrappers
  import opened ContainerSpecs
  import opened CollapsedJobSpecs
  import opened JobPreparation
  import opened Sequences

  type Handle = nat

  datatype Request = Request(handle: Handle, job: ClientJobSpec, containers: Containers)

  /** A job waiting for a layer: in which of its two lists, which job, which position. */
  datatype Waiter = Waiter(image: bool, ijid: nat, index: nat)

  datatype ImageEntry = GotImage(result: Result<ConvertedImage, Error>) | GettingImage(waiting: seq<nat>)

  datatype LayerEntry = GotLayer(result: Result<Artifact, Error>) | GettingLayer(waiting: seq<Waiter>)

  type Slots = seq<Option<Artifact>>

  datatype Job = Job(handle: Handle, spec: CollapsedJobSpec, imageLayers: Slots, layers: Slots)

  type Images = map<string, ImageEntry>
  type Layers = map<LayerSpec, LayerEntry>
  type Jobs = map<nat, Job>

  // ----- Registration

  /**
   A waiter is registered with a layer if the layer's entry lists it. While a result is
   being handed out, `handing` holds the waiters that have been taken off the entry but
   not yet been served.
   */
  predicate Registered(layers: Layers, handing: set<(LayerSpec, Waiter)>, l: LayerSpec, w: Waiter) {
    || (l in layers && layers[l].GettingLayer? && w in layers[l].waiting)
    || (l, w) in handing
  }

  predicate WaitsForImage(images: Images, handing: set<(string, nat)>, name: string, ijid: nat) {
    || (name in images && images[name].GettingImage? && ijid in images[name].waiting)
    || (name, ijid) in handing
  }

  function SpecsOf(job: Job, image: bool): seq<LayerSpec> {
    if image then job.spec.imageLayers else job.spec.layers
  }

  function SlotsOf(job: Job, image: bool): Slots {
    if image then job.imageLayers else job.layers
  }

  function WithSlots(job: Job, image: bool, slots: Slots): Job {
    if image then job.(imageLayers := slots) else job.(layers := slots)
  }

  /** Every slot is either filled with its layer's artifact or waits for that layer. */
  ghost predicate SlotsOk(layers: Layers, handing: set<(LayerSpec, Waiter)>, ijid: nat, image: bool,
                          specs: seq<LayerSpec>, slots: Slots) {
    && |slots| == |specs|
    && forall i :: 0 <= i < |specs| ==>
         match slots[i]
         case None => Registered(layers, handing, specs[i], Waiter(image, ijid, i))
         case Some(a) => specs[i] in layers && layers[specs[i]] == GotLayer(Ok(a))
  }

  predicate AllFilled(slots: Slots) {
    forall i :: 0 <= i < |slots| ==> slots[i].Some?
  }

  /** `Job::is_ready`. */
  predicate Ready(job: Job) {
    job.spec.image.None? && AllFilled(job.imageLayers) && AllFilled(job.layers)
  }

  function Values(slots: Slots): (r: seq<Artifact>)
    requires AllFilled(slots)
    ensures |r| == |slots| && forall i :: 0 <= i < |slots| ==> r[i] == slots[i].value
  {
    if slots == [] then [] else Values(slots[..|slots| - 1]) + [slots[|slots| - 1].value]
  }

  // ----- The tables together

  /** The tables; `handingImages` and `handingLayers` are as explained at `Registered`. */
  datatype State = State(images: Images, layers: Layers, jobs: Jobs,
                         handingImages: set<(string, nat)>, handingLayers: set<(LayerSpec, Waiter)>)

  /** A job's record is what the request collapses to, with or without its image, and waits for what it lacks. */
  ghost predicate JobFacts(world: World, req: Request, s: State, ijid: nat, job: Job) {
    && job.handle == req.handle
    && Collapse(req.job, req.containers).Ok?
    && SlotsOk(s.layers, s.handingLayers, ijid, false, job.spec.layers, job.layers)
    && SlotsOk(s.layers, s.handingLayers, ijid, true, job.spec.imageLayers, job.imageLayers)
    && var c := Collapse(req.job, req.containers).value;
       if job.spec.image.Some? then
         job.spec == c && WaitsForImage(s.images, s.handingImages, c.image.value.name, ijid)
       else
         (c.image.Some? ==> ReadyForImage(c)) && WithImage(world, c) == Ok(job.spec)
  }

  ghost predicate JobsOk(world: World, accepted: seq<Request>, s: State) {
    forall j :: j in s.jobs ==>
      j < |accepted| && JobFacts(world, accepted[j], s, j, s.jobs[j]) && !Ready(s.jobs[j])
  }

  /** A registered waiter of a live job is for an empty slot of that layer; one of a job that is gone is inert. */
  ghost predicate WaiterOk(jobs: Jobs, l: LayerSpec, w: Waiter) {
    w.ijid in jobs ==>
      var job := jobs[w.ijid];
      && w.index < |SpecsOf(job, w.image)| && SpecsOf(job, w.image)[w.index] == l
      && w.index < |SlotsOf(job, w.image)| && SlotsOf(job, w.image)[w.index] == None
  }

  ghost predicate WaitersOk(accepted: seq<Request>, s: State) {
    && (forall l, w :: Registered(s.layers, s.handingLayers, l, w) ==> w.ijid < |accepted| && WaiterOk(s.jobs, l, w))
    && (forall l :: l in s.layers && s.layers[l].GettingLayer? ==> NoDuplicates(s.layers[l].waiting))
  }

  ghost predicate ImageWaitersOk(accepted: seq<Request>, s: State) {
    && (forall name, j: nat :: WaitsForImage(s.images, s.handingImages, name, j) ==>
          && j < |accepted|
          && (j in s.jobs ==> s.jobs[j].spec.image.Some? && s.jobs[j].spec.image.value.name == name))
    && (forall name :: name in s.images && s.images[name].GettingImage? ==> NoDuplicates(s.images[name].waiting))
  }

  ghost predicate ResultsOk(world: World, s: State) {
    && (forall name :: name in s.images && s.images[name].GotImage? ==>
          s.images[name].result == world.imageResult(name))
    && (forall l :: l in s.layers && s.layers[l].GotLayer? ==> s.layers[l].result == world.layerResult(l))
  }

  ghost predicate Inv(world: World, accepted: seq<Request>, s: State) {
    && JobsOk(world, accepted, s)
    && WaitersOk(accepted, s)
    && ImageWaitersOk(accepted, s)
    && ResultsOk(world, s)
  }

  // ----- What is known and asked for

  /** What the preparer knows, and what it has asked of the outside world, in the order of asking. */
  datatype Known = Known(images: Images, layers: Layers, imagesRequested: seq<string>,
                         buildsStarted: seq<LayerSpec>, buildsWaiting: seq<LayerSpec>)

  /** Every build asked for, in the order of asking, which is the order of starting. */
  function Builds(known: Known): seq<LayerSpec> {
    known.buildsStarted + known.buildsWaiting
  }

  /**
   Nothing is forgotten: results stay as they are, an image or layer once asked for stays in
   its table, no request is taken back or reordered, and builds are not overtaken in the queue.
   */
  ghost predicate Grows(before: Known, after: Known) {
    && before.imagesRequested <= after.imagesRequested
    && before.buildsStarted <= after.buildsStarted
    && Builds(before) <= Builds(after)
    && (forall name :: name in before.images ==> name in after.images)
    && (forall name :: name in before.images && before.images[name].GotImage? ==>
          after.images[name] == before.images[name])
    && (forall l :: l in before.layers ==> l in after.layers)
    && (forall l :: l in before.layers && before.layers[l].GotLayer? ==> after.layers[l] == before.layers[l])
  }

  lemma GrowsOn(a: Known, b: Known, c: Known)
    requires Grows(a, b) && Grows(b, c)
    ensures Grows(a, c)
  {
  }

  /** No layer is asked for but those wanted. */
  predicate OnlyAdds(before: Layers, after: Layers, wanted: seq<LayerSpec>) {
    forall l :: l in after ==> l in before || l in wanted
  }

  lemma NothingAsked(k: Known)
    ensures Grows(k, k) && forall wanted :: OnlyAdds(k.layers, k.layers, wanted)
  {
  }

  lemma OnlyAddsOn(a: Layers, b: Layers, c: Layers, wanted: seq<LayerSpec>)
    requires OnlyAdds(a, b, wanted) && OnlyAdds(b, c, wanted)
    ensures OnlyAdds(a, c, wanted)
  {
  }

  /** The layers an image brings, once its fetch has succeeded. */
  function LayersOfImage(result: Result<ConvertedImage, Error>): seq<LayerSpec> {
    if result.Ok? && TarLayers(result.value.layers).Ok? then TarLayers(result.value.layers).value else []
  }

  /** The layers that filing a job can ask for besides its own: those of an image that is already there. */
  function LayersAtHand(images: Images, c: CollapsedJobSpec): seq<LayerSpec> {
    if c.image.Some? && c.image.value.name in images && images[c.image.value.name].GotImage?
    then LayersOfImage(images[c.image.value.name].result)
    else []
  }

  predicate NamesImage(c: CollapsedJobSpec, name: string) {
    c.image.Some? && c.image.value.name == name
  }

  /** A request that collapses asks for nothing but its image and layers; one that does not asks for nothing. */
  predicate OnlyAsks(before: Known, after: Known, collapsed: Result<CollapsedJobSpec, CollapseError>) {
    match collapsed
    case Err(_) => after == before
    case Ok(c) =>
      && OnlyAdds(before.layers, after.layers, c.layers + LayersAtHand(before.images, c))
      && forall name :: name in after.images ==> name in before.images || NamesImage(c, name)
  }

  /** The image is on its way. */
  predicate Getting(known: Known, name: string) {
    name in known.images && known.images[name].GettingImage?
  }

  /** The layer's build is in flight. */
  predicate Building(known: Known, spec: LayerSpec) {
    spec in known.buildsStarted && spec in known.layers && known.layers[spec].GettingLayer?
  }

  /** The image has its result, and of the layers only those it brings may have been asked for. */
  ghost predicate ImageRecorded(before: Known, after: Known, name: string, result: Result<ConvertedImage, Error>) {
    && after.images == before.images[name := GotImage(result)] && after.imagesRequested == before.imagesRequested
    && OnlyAdds(before.layers, after.layers, LayersOfImage(result))
  }

  /** The layer has its result, and the longest-waiting build takes the place of the one that has ended. */
  function LayerRecorded(known: Known, spec: LayerSpec, result: Result<Artifact, Error>): Known {
    var recorded := known.(layers := known.layers[spec := GotLayer(result)]);
    if known.buildsWaiting == [] then recorded
    else recorded.(buildsStarted := known.buildsStarted + [known.buildsWaiting[0]],
                   buildsWaiting := known.buildsWaiting[1..])
  }

  lemma ImageKnown(k: Known, name: string, result: Result<ConvertedImage, Error>)
    requires Getting(k, name)
    ensures Grows(k, k.(images := k.images[name := GotImage(result)]))
    ensures OnlyAdds(k.layers, k.layers, LayersOfImage(result))
  {
  }

  lemma LayerKnown(k: Known, spec: LayerSpec, result: Result<Artifact, Error>)
    requires Building(k, spec)
    ensures Grows(k, LayerRecorded(k, spec, result))
  {
  }

  lemma OnlyImageLayers(before: Layers, after: Layers, c: CollapsedJobSpec, image: ConvertedImage,
                        spec: CollapsedJobSpec)
    requires ReadyForImage(c) && Integrate(c, image) == Ok(spec) && OnlyAdds(before, after, spec.imageLayers)
    ensures OnlyAdds(before, after, LayersOfImage(Ok(image)))
  {
  }

  /** A job's own layers are asked for first, and then it is filed. */
  lemma OnlyAsksInTurn(before: Known, between: Known, after: Known, c: CollapsedJobSpec)
    requires OnlyAdds(before.layers, between.layers, c.layers) && between.images == before.images
    requires OnlyAdds(between.layers, after.layers, LayersAtHand(between.images, c))
    requires forall name :: name in after.images ==> name in between.images || NamesImage(c, name)
    ensures OnlyAsks(before, after, Ok(c))
  {
  }

  /** A request that is refused for its layers has asked for those before the one that fails. */
  lemma OnlyAsksRefused(before: Known, after: Known, c: CollapsedJobSpec)
    requires OnlyAdds(before.layers, after.layers, c.layers) && after.images == before.images
    ensures OnlyAsks(before, after, Ok(c))
  {
  }

  /** Each layer that is not in the table yet, once, in order. */
  function Fresh(layers: Layers, specs: seq<LayerSpec>): seq<LayerSpec> {
    if specs == [] then []
    else
      var front, last := specs[..|specs| - 1], specs[|specs| - 1];
      Fresh(layers, front) + if last in layers || last in front then [] else [last]
  }

  /** Asking for some layers in turn: the new ones are queued for building, each once and in order. */
  ghost predicate AsksFor(before: Known, after: Known, specs: seq<LayerSpec>) {
    && Grows(before, after)
    && after.images == before.images && after.imagesRequested == before.imagesRequested
    && (forall l :: l in after.layers <==> l in before.layers || l in specs)
    && Builds(after) == Builds(before) + Fresh(before.layers, specs)
  }

  lemma AsksForOne(k: Known, started: seq<LayerSpec>, waiting: seq<LayerSpec>, l: LayerSpec, w: Waiter)
    requires l in k.layers ==> k.layers[l].GettingLayer?
    requires if l in k.layers then started == k.buildsStarted && waiting == k.buildsWaiting
             else k.buildsStarted <= started && started + waiting == Builds(k) + [l]
    ensures AsksFor(k, k.(layers := AddWaiter(k.layers, l, w), buildsStarted := started, buildsWaiting := waiting), [l])
  {
    assert [l][..0] == [];
  }

  lemma AsksForNone(k: Known)
    ensures AsksFor(k, k, [])
  {
  }

  lemma AsksForKnown(k: Known, l: LayerSpec)
    requires l in k.layers
    ensures AsksFor(k, k, [l])
  {
    assert [l][..0] == [];
  }

  lemma AsksForNext(a: Known, b: Known, c: Known, specs: seq<LayerSpec>, i: nat)
    requires i < |specs| && AsksFor(a, b, specs[..i]) && AsksFor(b, c, [specs[i]])
    ensures AsksFor(a, c, specs[..i + 1])
  {
    GrowsOn(a, b, c);
    FreshNext(a.layers, b.layers, specs, i);
    assert Builds(a) + Fresh(a.layers, specs[..i + 1])
        == Builds(a) + Fresh(a.layers, specs[..i]) + Fresh(b.layers, [specs[i]]);
    assert specs[..i + 1] == specs[..i] + [specs[i]];
  }

  lemma {:induction false} FreshNext(before: Layers, after: Layers, specs: seq<LayerSpec>, i: nat)
    requires i < |specs| && forall l :: l in after <==> l in before || l in specs[..i]
    ensures Fresh(before, specs[..i + 1]) == Fresh(before, specs[..i]) + Fresh(after, [specs[i]])
  {
    assert specs[..i + 1][..i] == specs[..i];
    assert [specs[i]][..0] == [];
  }

  lemma AsksForSome(before: Known, after: Known, specs: seq<LayerSpec>, i: nat)
    requires i <= |specs| && AsksFor(before, after, specs[..i])
    ensures Grows(before, after) && OnlyAdds(before.layers, after.layers, specs)
  {
  }

  lemma GrowsByImage(k: Known, name: string, ijid: nat)
    requires name in k.images ==> k.images[name].GettingImage?
    ensures
      var waiting := if name in k.images then k.images[name].waiting + [ijid] else [ijid];
      var images := k.images[name := GettingImage(waiting)];
      var requested := if name in k.images then k.imagesRequested else k.imagesRequested + [name];
      Grows(k, k.(images := images, imagesRequested := requested))
  {
  }

  // ----- A ready job, and a job that cannot become ready

  lemma {:induction false} FilledIsResolved(world: World, s: State, ijid: nat, image: bool, specs: seq<LayerSpec>,
                                            slots: Slots)
    requires SlotsOk(s.layers, s.handingLayers, ijid, image, specs, slots) && AllFilled(slots) && ResultsOk(world, s)
    ensures Resolve(world, specs) == Ok(Values(slots))
  {
    ResolveAll(world, specs, Values(slots));
  }

  /** A job that is ready is answered as the sequential preparation would answer it. */
  lemma ReadyAgrees(world: World, req: Request, s: State, ijid: nat, job: Job)
    requires JobFacts(world, req, s, ijid, job) && Ready(job) && ResultsOk(world, s)
    ensures Complete(world.evaluateEnvironment, job.spec, Values(job.imageLayers) + Values(job.layers))
         == Sequential(world, req.job, req.containers)
  {
    FilledIsResolved(world, s, ijid, false, job.spec.layers, job.layers);
    FilledIsResolved(world, s, ijid, true, job.spec.imageLayers, job.imageLayers);
    CollapsedIsReady(req.job, req.containers);
  }

  /** If a layer that a job needs cannot be built, that is an error its request can fail with. */
  lemma LayerFailure(world: World, req: Request, s: State, ijid: nat, job: Job, l: LayerSpec, w: Waiter, err: Error)
    requires JobFacts(world, req, s, ijid, job)
    requires w.index < |SpecsOf(job, w.image)| && SpecsOf(job, w.image)[w.index] == l
    requires world.layerResult(l) == Err(err)
    ensures CanFailWith(world, req.job, req.containers, err)
  {
    CollapsedIsReady(req.job, req.containers);
    assert LayerFailsWith(world, SpecsOf(job, w.image), err);
  }

  /** If a job's image cannot be had or used, that is an error its request can fail with. */
  lemma ImageFailure(world: World, req: Request, s: State, ijid: nat, job: Job, err: Error)
    requires JobFacts(world, req, s, ijid, job) && job.spec.image.Some?
    requires ReadyForImage(job.spec) ==> WithImage(world, job.spec) == Err(err)
    ensures CanFailWith(world, req.job, req.containers, err)
  {
    CollapsedIsReady(req.job, req.containers);
  }

  // ----- Changes that keep the invariant

  /** Job `j` loses no registration and no result from `s` to `s'`. */
  ghost predicate KeepsFor(s: State, s': State, j: nat) {
    && (forall l, w :: Registered(s.layers, s.handingLayers, l, w) && w.ijid == j ==>
                         Registered(s'.layers, s'.handingLayers, l, w))
    && (forall l :: l in s.layers && s.layers[l].GotLayer? ==> l in s'.layers && s'.layers[l] == s.layers[l])
    && (forall name :: WaitsForImage(s.images, s.handingImages, name, j) ==>
                         WaitsForImage(s'.images, s'.handingImages, name, j))
  }

  lemma FactsKept(world: World, req: Request, s: State, s': State, j: nat, job: Job)
    requires JobFacts(world, req, s, j, job) && KeepsFor(s, s', j)
    ensures JobFacts(world, req, s', j, job)
  {
  }

  lemma JobsKept(world: World, accepted: seq<Request>, s: State, s': State)
    requires JobsOk(world, accepted, s) && (forall j :: j in s'.jobs ==> j in s.jobs && s'.jobs[j] == s.jobs[j])
    requires forall j :: j in s'.jobs ==> KeepsFor(s, s', j)
    ensures JobsOk(world, accepted, s')
  {
    forall j | j in s'.jobs
      ensures j < |accepted| && JobFacts(world, accepted[j], s', j, s'.jobs[j]) && !Ready(s'.jobs[j])
    {
      FactsKept(world, accepted[j], s, s', j, s.jobs[j]);
    }
  }

  lemma RemoveJob(world: World, accepted: seq<Request>, s: State, ijid: nat)
    requires Inv(world, accepted, s)
    ensures Inv(world, accepted, s.(jobs := s.jobs - {ijid}))
  {
    hide JobFacts, Ready;
    var s' := s.(jobs := s.jobs - {ijid});
    JobsKept(world, accepted, s, s');
  }

  /** Every waiter registered for `ijid` is for an empty slot of `job`. */
  ghost predicate WaitersFit(s: State, ijid: nat, job: Job) {
    && (forall l, w :: Registered(s.layers, s.handingLayers, l, w) && w.ijid == ijid ==>
                         WaiterOk(map[ijid := job], l, w))
    && (forall name :: WaitsForImage(s.images, s.handingImages, name, ijid) ==>
                         job.spec.image.Some? && job.spec.image.value.name == name)
  }

  lemma AddJobFacts(world: World, accepted: seq<Request>, s: State, ijid: nat, job: Job)
    requires JobsOk(world, accepted, s) && ijid < |accepted|
    requires JobFacts(world, accepted[ijid], s, ijid, job) && !Ready(job)
    ensures JobsOk(world, accepted, s.(jobs := s.jobs[ijid := job]))
  {
    hide Ready;
    var s' := s.(jobs := s.jobs[ijid := job]);
    forall j | j in s'.jobs
      ensures j < |accepted| && JobFacts(world, accepted[j], s', j, s'.jobs[j]) && !Ready(s'.jobs[j])
    {
      FactsKept(world, accepted[j], s, s', j, s'.jobs[j]);
    }
  }

  lemma AddJob(world: World, accepted: seq<Request>, s: State, ijid: nat, job: Job)
    requires Inv(world, accepted, s) && ijid < |accepted|
    requires JobFacts(world, accepted[ijid], s, ijid, job) && !Ready(job) && WaitersFit(s, ijid, job)
    ensures Inv(world, accepted, s.(jobs := s.jobs[ijid := job]))
  {
    hide JobFacts, Ready, JobsOk;
    var s' := s.(jobs := s.jobs[ijid := job]);
    AddJobFacts(world, accepted, s, ijid, job);
    forall l, w | Registered(s.layers, s.handingLayers, l, w) ensures w.ijid < |accepted| && WaiterOk(s'.jobs, l, w) {
      if w.ijid == ijid {
        assert WaiterOk(map[ijid := job], l, w);
      } else {
        assert WaiterOk(s.jobs, l, w);
      }
    }
  }

  // ----- Registering waiters

  function AddWaiter(layers: Layers, l: LayerSpec, w: Waiter): Layers
    requires l in layers ==> layers[l].GettingLayer?
  {
    layers[l := GettingLayer(if l in layers then layers[l].waiting + [w] else [w])]
  }

  lemma AddWaiterRegisters(layers: Layers, handing: set<(LayerSpec, Waiter)>, l: LayerSpec, w: Waiter)
    requires l in layers ==> layers[l].GettingLayer?
    ensures forall l', w' :: Registered(AddWaiter(layers, l, w), handing, l', w') <==>
                             Registered(layers, handing, l', w') || (l', w') == (l, w)
  {
    var waiting := if l in layers then layers[l].waiting else [];
    assert forall w' :: w' in waiting + [w] <==> w' in waiting || w' == w;
    assert [] + [w] == [w];
  }

  lemma AddWaiterKeeps(world: World, accepted: seq<Request>, s: State, l: LayerSpec, w: Waiter)
    requires Inv(world, accepted, s) && (l in s.layers ==> s.layers[l].GettingLayer?)
    requires w.ijid < |accepted| && w.ijid !in s.jobs && !Registered(s.layers, s.handingLayers, l, w)
    ensures Inv(world, accepted, s.(layers := AddWaiter(s.layers, l, w)))
    ensures forall l', w' :: Registered(AddWaiter(s.layers, l, w), s.handingLayers, l', w') <==>
                             Registered(s.layers, s.handingLayers, l', w') || (l', w') == (l, w)
  {
    hide JobFacts, Ready;
    var s' := s.(layers := AddWaiter(s.layers, l, w));
    AddWaiterRegisters(s.layers, s.handingLayers, l, w);
    assert forall l' :: l' in s'.layers && s'.layers[l'].GettingLayer? ==> NoDuplicates(s'.layers[l'].waiting) by {
      AppendDistinct(if l in s.layers then s.layers[l].waiting else [], w);
    }
    assert WaitersOk(accepted, s') by {
      hide Registered, NoDuplicates;
    }
    JobsKept(world, accepted, s, s');
  }

  function AddImageWaiter(images: Images, name: string, j: nat): Images
    requires name in images ==> images[name].GettingImage?
  {
    images[name := GettingImage(if name in images then images[name].waiting + [j] else [j])]
  }

  lemma AddImageWaiterKeeps(world: World, accepted: seq<Request>, s: State, name: string, j: nat)
    requires Inv(world, accepted, s) && (name in s.images ==> s.images[name].GettingImage?)
    requires j < |accepted| && j !in s.jobs && !WaitsForImage(s.images, s.handingImages, name, j)
    ensures Inv(world, accepted, s.(images := AddImageWaiter(s.images, name, j)))
    ensures forall name', j': nat :: WaitsForImage(AddImageWaiter(s.images, name, j), s.handingImages, name', j') <==>
                                WaitsForImage(s.images, s.handingImages, name', j') || (name', j') == (name, j)
  {
    hide JobFacts, Ready;
    var s' := s.(images := AddImageWaiter(s.images, name, j));
    if name in s.images {
      AppendDistinct(s.images[name].waiting, j);
    } else {
      AppendDistinct([], j);
    }
    assert forall name', j': nat :: WaitsForImage(s'.images, s'.handingImages, name', j') <==>
                                    WaitsForImage(s.images, s.handingImages, name', j') || (name', j') == (name, j);
    JobsKept(world, accepted, s, s');
    assert ImageWaitersOk(accepted, s');
  }

  // ----- Handing out a result

  ghost function Handing<T(!new)>(key: T, waiting: seq<Waiter>): set<(T, Waiter)> {
    set w | w in waiting :: (key, w)
  }

  ghost function HandingImages(name: string, waiting: seq<nat>): set<(string, nat)> {
    set j | j in waiting :: (name, j)
  }

  /** Storing a layer's result turns its registered waiters into waiters being served. */
  lemma LayerArrives(world: World, accepted: seq<Request>, s: State, l: LayerSpec)
    requires Inv(world, accepted, s) && s.handingLayers == {}
    requires l in s.layers && s.layers[l].GettingLayer?
    ensures Inv(world, accepted, s.(layers := s.layers[l := GotLayer(world.layerResult(l))],
                                    handingLayers := Handing(l, s.layers[l].waiting)))
  {
    hide JobFacts, Ready;
    var s' := s.(layers := s.layers[l := GotLayer(world.layerResult(l))],
                 handingLayers := Handing(l, s.layers[l].waiting));
    assert forall l', w :: Registered(s'.layers, s'.handingLayers, l', w) <==> Registered(s.layers, {}, l', w);
    JobsKept(world, accepted, s, s');
  }

  lemma ImageArrives(world: World, accepted: seq<Request>, s: State, name: string)
    requires Inv(world, accepted, s) && s.handingImages == {}
    requires name in s.images && s.images[name].GettingImage?
    ensures Inv(world, accepted, s.(images := s.images[name := GotImage(world.imageResult(name))],
                                    handingImages := HandingImages(name, s.images[name].waiting)))
  {
    hide JobFacts, Ready;
    var s' := s.(images := s.images[name := GotImage(world.imageResult(name))],
                 handingImages := HandingImages(name, s.images[name].waiting));
    assert forall n, j: nat :: WaitsForImage(s'.images, s'.handingImages, n, j) <==> WaitsForImage(s.images, {}, n, j);
    JobsKept(world, accepted, s, s');
  }

  /** Waiters of jobs that are gone may be dropped. */
  lemma DropWaiters(world: World, accepted: seq<Request>, s: State,
                    handingImages: set<(string, nat)>, handingLayers: set<(LayerSpec, Waiter)>)
    requires Inv(world, accepted, s) && handingImages <= s.handingImages && handingLayers <= s.handingLayers
    requires forall x :: x in s.handingImages && x !in handingImages ==> x.1 !in s.jobs
    requires forall x :: x in s.handingLayers && x !in handingLayers ==> x.1.ijid !in s.jobs
    ensures Inv(world, accepted, s.(handingImages := handingImages, handingLayers := handingLayers))
  {
    hide JobFacts, Ready;
    var s' := s.(handingImages := handingImages, handingLayers := handingLayers);
    assert forall l, w :: Registered(s'.layers, s'.handingLayers, l, w) ==> Registered(s.layers, s.handingLayers, l, w);
    assert forall n, j: nat ::
        WaitsForImage(s'.images, s'.handingImages, n, j) ==> WaitsForImage(s.images, s.handingImages, n, j);
    JobsKept(world, accepted, s, s');
  }

  /** The tables without job `w.ijid` and without the waiter being served. */
  ghost function Serving(s: State, l: LayerSpec, w: Waiter): State {
    s.(jobs := s.jobs - {w.ijid}, handingLayers := s.handingLayers - {(l, w)})
  }

  /** Filling a slot: the waiter being served fits its job, and the job's other waiters are untouched. */
  lemma FillSlot(world: World, accepted: seq<Request>, s: State, l: LayerSpec, w: Waiter, a: Artifact)
    requires Inv(world, accepted, s) && (l, w) in s.handingLayers && w.ijid in s.jobs
    requires l in s.layers && s.layers[l] == GotLayer(Ok(a))
    ensures w.ijid < |accepted| && w.index < |SlotsOf(s.jobs[w.ijid], w.image)|
    ensures
      var job := s.jobs[w.ijid];
      var job' := WithSlots(job, w.image, SlotsOf(job, w.image)[w.index := Some(a)]);
      var s' := Serving(s, l, w);
      && Inv(world, accepted, s')
      && JobFacts(world, accepted[w.ijid], s', w.ijid, job') && WaitersFit(s', w.ijid, job')
  {
    var job := s.jobs[w.ijid];
    assert Registered(s.layers, s.handingLayers, l, w);
    assert WaiterOk(s.jobs, l, w);
    assert JobFacts(world, accepted[w.ijid], s, w.ijid, job);
    var s' := Serving(s, l, w);
    RemoveJob(world, accepted, s, w.ijid);
    DropWaiters(world, accepted, s.(jobs := s.jobs - {w.ijid}), s.handingImages, s'.handingLayers);
    var job' := WithSlots(job, w.image, SlotsOf(job, w.image)[w.index := Some(a)]);
    FilledSlots(s, l, w, a, false);
    FilledSlots(s, l, w, a, true);
    FilledFits(world, accepted, s, l, w, a);
  }

  lemma FilledSlots(s: State, l: LayerSpec, w: Waiter, a: Artifact, image: bool)
    requires w.ijid in s.jobs && WaiterOk(s.jobs, l, w) && l in s.layers && s.layers[l] == GotLayer(Ok(a))
    requires SlotsOk(s.layers, s.handingLayers, w.ijid, image, SpecsOf(s.jobs[w.ijid], image),
                     SlotsOf(s.jobs[w.ijid], image))
    ensures
      var job := s.jobs[w.ijid];
      var job' := WithSlots(job, w.image, SlotsOf(job, w.image)[w.index := Some(a)]);
      SlotsOk(s.layers, s.handingLayers - {(l, w)}, w.ijid, image, SpecsOf(job', image), SlotsOf(job', image))
  {
    var job := s.jobs[w.ijid];
    var job' := WithSlots(job, w.image, SlotsOf(job, w.image)[w.index := Some(a)]);
    var specs, slots := SpecsOf(job', image), SlotsOf(job', image);
    forall i | 0 <= i < |specs| && slots[i] == None
      ensures Registered(s.layers, s.handingLayers - {(l, w)}, specs[i], Waiter(image, w.ijid, i))
    {
      assert SlotsOf(job, image)[i] == None;
      assert Waiter(image, w.ijid, i) != w;
    }
  }

  lemma FilledFits(world: World, accepted: seq<Request>, s: State, l: LayerSpec, w: Waiter, a: Artifact)
    requires WaitersOk(accepted, s) && ImageWaitersOk(accepted, s) && (l, w) in s.handingLayers && w.ijid in s.jobs
    requires WaiterOk(s.jobs, l, w) && l in s.layers && s.layers[l].GotLayer?
    ensures
      var job := s.jobs[w.ijid];
      WaitersFit(Serving(s, l, w), w.ijid, WithSlots(job, w.image, SlotsOf(job, w.image)[w.index := Some(a)]))
  {
    var job := s.jobs[w.ijid];
    var s' := Serving(s, l, w);
    var job' := WithSlots(job, w.image, SlotsOf(job, w.image)[w.index := Some(a)]);
    forall l', w' | Registered(s'.layers, s'.handingLayers, l', w') && w'.ijid == w.ijid
      ensures WaiterOk(map[w.ijid := job'], l', w')
    {
      assert Registered(s.layers, s.handingLayers, l', w');
      assert WaiterOk(s.jobs, l', w');
    }
    forall name | WaitsForImage(s'.images, s'.handingImages, name, w.ijid)
      ensures job'.spec.image.Some? && job'.spec.image.value.name == name
    {
      assert WaitsForImage(s.images, s.handingImages, name, w.ijid);
    }
  }

  // ----- Evaluating a list of layers

  /** The registrations that evaluating `specs` adds, one for each slot left empty. */
  ghost predicate Evaluated(before: Layers, after: Layers, handing: set<(LayerSpec, Waiter)>,
                            ijid: nat, image: bool, specs: seq<LayerSpec>, slots: Slots) {
    && (forall l :: l in before && before[l].GotLayer? ==> l in after && after[l] == before[l])
    && (forall l, w :: Registered(before, handing, l, w) ==> Registered(after, handing, l, w))
    && (forall l, w :: Registered(after, handing, l, w) ==>
          Registered(before, handing, l, w) || FreshWaiter(ijid, image, specs, slots, l, w))
    && |slots| <= |specs| && SlotsOk(after, handing, ijid, image, specs[..|slots|], slots)
  }

  predicate FreshWaiter(ijid: nat, image: bool, specs: seq<LayerSpec>, slots: Slots, l: LayerSpec, w: Waiter) {
    && w.ijid == ijid && w.image == image
    && w.index < |slots| && w.index < |specs| && specs[w.index] == l && slots[w.index] == None
  }

  /** No waiter for list `image` of job `ijid` is registered. */
  ghost predicate NoneRegistered(layers: Layers, handing: set<(LayerSpec, Waiter)>, ijid: nat, image: bool) {
    forall l, w :: Registered(layers, handing, l, w) ==> w.ijid != ijid || w.image != image
  }

  lemma EvaluatedHit(before: Layers, after: Layers, handing: set<(LayerSpec, Waiter)>,
                     ijid: nat, image: bool, specs: seq<LayerSpec>, slots: Slots, a: Artifact)
    requires Evaluated(before, after, handing, ijid, image, specs, slots) && |slots| < |specs|
    requires specs[|slots|] in after && after[specs[|slots|]] == GotLayer(Ok(a))
    ensures Evaluated(before, after, handing, ijid, image, specs, slots + [Some(a)])
  {
    var slots' := slots + [Some(a)];
    forall l, w | Registered(after, handing, l, w)
      ensures Registered(before, handing, l, w) || FreshWaiter(ijid, image, specs, slots', l, w)
    {
    }
  }

  lemma EvaluatedMiss(before: Layers, after: Layers, handing: set<(LayerSpec, Waiter)>,
                      ijid: nat, image: bool, specs: seq<LayerSpec>, slots: Slots)
    requires Evaluated(before, after, handing, ijid, image, specs, slots) && |slots| < |specs|
    requires NoneRegistered(before, handing, ijid, image)
    requires specs[|slots|] in after ==> after[specs[|slots|]].GettingLayer?
    ensures !Registered(after, handing, specs[|slots|], Waiter(image, ijid, |slots|))
    ensures
      var after' := AddWaiter(after, specs[|slots|], Waiter(image, ijid, |slots|));
      (forall l, w :: Registered(after', handing, l, w) <==>
         Registered(after, handing, l, w) || (l, w) == (specs[|slots|], Waiter(image, ijid, |slots|))) ==>
      Evaluated(before, after', handing, ijid, image, specs, slots + [None])
  {
    var slots' := slots + [None];
    var after' := AddWaiter(after, specs[|slots|], Waiter(image, ijid, |slots|));
    if forall l, w :: Registered(after', handing, l, w) <==>
         Registered(after, handing, l, w) || (l, w) == (specs[|slots|], Waiter(image, ijid, |slots|)) {
      forall l, w | Registered(after', handing, l, w)
        ensures Registered(before, handing, l, w) || FreshWaiter(ijid, image, specs, slots', l, w)
      {
        if !Registered(before, handing, l, w) && Registered(after, handing, l, w) {
          assert FreshWaiter(ijid, image, specs, slots, l, w);
        }
      }
    }
  }

  // ----- A new job, and a job whose image has arrived

  /** A collapsed job with its layers evaluated. */
  lemma NewJobFacts(world: World, req: Request, s: State, ijid: nat, slots: Slots)
    requires Collapse(req.job, req.containers).Ok?
    requires
      var c := Collapse(req.job, req.containers).value;
      && SlotsOk(s.layers, s.handingLayers, ijid, false, c.layers, slots)
      && (c.image.Some? ==> WaitsForImage(s.images, s.handingImages, c.image.value.name, ijid))
    ensures JobFacts(world, req, s, ijid, Job(req.handle, Collapse(req.job, req.containers).value, [], slots))
  {
    CollapsedIsReady(req.job, req.containers);
  }

  lemma NewJobFits(before: Layers, s: State, ijid: nat, job: Job)
    requires Evaluated(before, s.layers, s.handingLayers, ijid, false, job.spec.layers, job.layers)
    requires |job.layers| == |job.spec.layers|
    requires forall l, w :: Registered(before, s.handingLayers, l, w) ==> w.ijid != ijid
    requires forall name :: WaitsForImage(s.images, s.handingImages, name, ijid) ==>
               job.spec.image.Some? && job.spec.image.value.name == name
    ensures WaitersFit(s, ijid, job)
  {
    forall l, w | Registered(s.layers, s.handingLayers, l, w) && w.ijid == ijid
      ensures WaiterOk(map[ijid := job], l, w)
    {
      assert FreshWaiter(ijid, false, job.spec.layers, job.layers, l, w);
    }
  }

  /** The tables without job `ijid` and without its claim on the image. */
  ghost function WithoutClaim(s: State, name: string, ijid: nat): State {
    s.(jobs := s.jobs - {ijid}, handingImages := s.handingImages - {(name, ijid)})
  }

  lemma StartIntegrating(world: World, accepted: seq<Request>, s: State, name: string, ijid: nat)
    requires Inv(world, accepted, s) && ijid in s.jobs
    requires s.jobs[ijid].spec.image.Some? && s.jobs[ijid].spec.image.value.name == name
    ensures Inv(world, accepted, WithoutClaim(s, name, ijid))
    ensures ReadyForImage(s.jobs[ijid].spec)
    ensures NoneRegistered(s.layers, s.handingLayers, ijid, true)
  {
    var job := s.jobs[ijid];
    assert JobFacts(world, accepted[ijid], s, ijid, job);
    CollapsedIsReady(accepted[ijid].job, accepted[ijid].containers);
    RemoveJob(world, accepted, s, ijid);
    DropWaiters(world, accepted, s.(jobs := s.jobs - {ijid}), s.handingImages - {(name, ijid)}, s.handingLayers);
    forall l, w | Registered(s.layers, s.handingLayers, l, w) ensures w.ijid != ijid || !w.image {
      assert WaiterOk(s.jobs, l, w);
    }
  }

  /** A job with its image integrated and the image's layers evaluated. */
  lemma IntegratedJobFacts(world: World, accepted: seq<Request>, s: State, after: Layers, name: string, ijid: nat,
                           image: ConvertedImage, spec: CollapsedJobSpec, slots: Slots)
    requires Inv(world, accepted, s) && ijid in s.jobs
    requires s.jobs[ijid].spec.image.Some? && s.jobs[ijid].spec.image.value.name == name
    requires ReadyForImage(s.jobs[ijid].spec) && Integrate(s.jobs[ijid].spec, image) == Ok(spec)
    requires world.imageResult(name) == Ok(image)
    requires Evaluated(s.layers, after, s.handingLayers, ijid, true, spec.imageLayers, slots)
    requires |slots| == |spec.imageLayers|
    ensures ijid < |accepted|
    ensures JobFacts(world, accepted[ijid], WithoutClaim(s, name, ijid).(layers := after), ijid,
                     Job(s.jobs[ijid].handle, spec, slots, s.jobs[ijid].layers))
  {
    var job := s.jobs[ijid];
    assert JobFacts(world, accepted[ijid], s, ijid, job);
    assert spec.imageLayers[..|slots|] == spec.imageLayers;
  }

  lemma IntegratedJobFits(accepted: seq<Request>, s: State, after: Layers, name: string, ijid: nat,
                          spec: CollapsedJobSpec, slots: Slots)
    requires WaitersOk(accepted, s) && ImageWaitersOk(accepted, s) && ijid in s.jobs
    requires s.jobs[ijid].spec.image.Some? && s.jobs[ijid].spec.image.value.name == name
    requires name in s.images && s.images[name].GotImage?
    requires spec.layers == s.jobs[ijid].spec.layers && spec.image.None?
    requires NoneRegistered(s.layers, s.handingLayers, ijid, true)
    requires Evaluated(s.layers, after, s.handingLayers, ijid, true, spec.imageLayers, slots)
    requires |slots| == |spec.imageLayers|
    ensures WaitersFit(WithoutClaim(s, name, ijid).(layers := after), ijid,
                       Job(s.jobs[ijid].handle, spec, slots, s.jobs[ijid].layers))
  {
    var job := s.jobs[ijid];
    var s' := WithoutClaim(s, name, ijid).(layers := after);
    var job' := Job(job.handle, spec, slots, job.layers);
    forall l, w | Registered(s'.layers, s'.handingLayers, l, w) && w.ijid == ijid
      ensures WaiterOk(map[ijid := job'], l, w)
    {
      if Registered(s.layers, s.handingLayers, l, w) {
        assert WaiterOk(s.jobs, l, w);
      } else {
        assert FreshWaiter(ijid, true, spec.imageLayers, slots, l, w);
      }
    }
    forall n | WaitsForImage(s'.images, s'.handingImages, n, ijid) ensures false {
      assert WaitsForImage(s.images, s.handingImages, n, ijid);
    }
  }

  /** If a layer of its image cannot be built, that is an error the request can fail with. */
  lemma ImageLayerFailure(world: World, req: Request, s: State, ijid: nat, job: Job, image: ConvertedImage,
                          spec: CollapsedJobSpec, i: nat, err: Error)
    requires JobFacts(world, req, s, ijid, job) && job.spec.image.Some?
    requires ReadyForImage(job.spec) && Integrate(job.spec, image) == Ok(spec)
    requires world.imageResult(job.spec.image.value.name) == Ok(image)
    requires i < |spec.imageLayers| && world.layerResult(spec.imageLayers[i]) == Err(err)
    ensures CanFailWith(world, req.job, req.containers, err)
  {
    CollapsedIsReady(req.job, req.containers);
    assert LayerFailsWith(world, spec.imageLayers, err);
  }

  lemma OwnLayerFailure(world: World, req: Request, i: nat, err: Error)
    requires Collapse(req.job, req.containers).Ok?
    requires i < |Collapse(req.job, req.containers).value.layers|
    requires world.layerResult(Collapse(req.job, req.containers).value.layers[i]) == Err(err)
    ensures CanFailWith(world, req.job, req.containers, err)
  {
    assert LayerFailsWith(world, Collapse(req.job, req.containers).value.layers, err);
  }

  lemma OwnImageFailure(world: World, req: Request, err: Error)
    requires Collapse(req.job, req.containers).Ok? && Collapse(req.job, req.containers).value.image.Some?
    requires world.imageResult(Collapse(req.job, req.containers).value.image.value.name) == Err(err)
    ensures CanFailWith(world, req.job, req.containers, err)
  {
    CollapsedIsReady(req.job, req.containers);
  }

  /** Accepting one more request leaves the tables in order, and nothing in them refers to it. */
  lemma Accept(world: World, accepted: seq<Request>, s: State, req: Request)
    requires Inv(world, accepted, s)
    ensures Inv(world, accepted + [req], s)
    ensures |accepted| !in s.jobs
    ensures forall l, w :: Registered(s.layers, s.handingLayers, l, w) ==> w.ijid != |accepted|
    ensures forall name :: !WaitsForImage(s.images, s.handingImages, name, |accepted|)
  {
    hide JobFacts, Ready;
    forall j | j in s.jobs
      ensures j < |accepted + [req]| && JobFacts(world, (accepted + [req])[j], s, j, s.jobs[j]) && !Ready(s.jobs[j])
    {
      assert (accepted + [req])[j] == accepted[j];
    }
  }

  /** What `PlaceNewJob` knows about a job that is about to be filed. */
  ghost predicate Unfiled(world: World, accepted: seq<Request>, s: State, before: Layers, ijid: nat, job: Job) {
    && Inv(world, accepted, s) && s.handingImages == {} && s.handingLayers == {}
    && ijid < |accepted| && ijid !in s.jobs
    && Collapse(accepted[ijid].job, accepted[ijid].containers) == Ok(job.spec)
    && job.handle == accepted[ijid].handle && job.imageLayers == [] && |job.layers| == |job.spec.layers|
    && Evaluated(before, s.layers, {}, ijid, false, job.spec.layers, job.layers)
    && (forall l, w :: Registered(before, {}, l, w) ==> w.ijid != ijid)
    && (forall name :: !WaitsForImage(s.images, {}, name, ijid))
  }

  lemma FileJob(world: World, accepted: seq<Request>, s: State, before: Layers, ijid: nat, job: Job)
    requires Unfiled(world, accepted, s, before, ijid, job) && job.spec.image.None? && !Ready(job)
    ensures JobFacts(world, accepted[ijid], s, ijid, job)
    ensures Inv(world, accepted, s.(jobs := s.jobs[ijid := job]))
  {
    UnfiledFacts(world, accepted, s, before, ijid, job);
    NewJobFits(before, s, ijid, job);
    AddJob(world, accepted, s, ijid, job);
  }

  lemma UnfiledFacts(world: World, accepted: seq<Request>, s: State, before: Layers, ijid: nat, job: Job)
    requires Unfiled(world, accepted, s, before, ijid, job) && job.spec.image.None?
    ensures JobFacts(world, accepted[ijid], s, ijid, job) && ResultsOk(world, s)
  {
    assert job.spec.layers[..|job.layers|] == job.spec.layers;
    NewJobFacts(world, accepted[ijid], s, ijid, job.layers);
  }

  /** Filing a job under an image that is still being fetched. */
  lemma FileUnderImage(world: World, accepted: seq<Request>, s: State, before: Layers, ijid: nat, job: Job,
                       name: string)
    requires Unfiled(world, accepted, s, before, ijid, job)
    requires job.spec.image.Some? && job.spec.image.value.name == name
    requires name in s.images ==> s.images[name].GettingImage?
    ensures Inv(world, accepted, s.(images := AddImageWaiter(s.images, name, ijid), jobs := s.jobs[ijid := job]))
  {
    hide Inv, JobFacts, Evaluated;
    var s' := s.(images := AddImageWaiter(s.images, name, ijid));
    AddImageWaiterKeeps(world, accepted, s, name, ijid);
    UnfiledSlots(world, accepted, s, before, ijid, job);
    NewJobFacts(world, accepted[ijid], s', ijid, job.layers);
    NewJobFits(before, s', ijid, job);
    AddJob(world, accepted, s', ijid, job);
  }

  lemma UnfiledSlots(world: World, accepted: seq<Request>, s: State, before: Layers, ijid: nat, job: Job)
    requires Unfiled(world, accepted, s, before, ijid, job)
    ensures SlotsOk(s.layers, {}, ijid, false, job.spec.layers, job.layers)
  {
    assert job.spec.layers[..|job.layers|] == job.spec.layers;
  }

  lemma ClaimKeeps(world: World, accepted: seq<Request>, s: State, name: string, ijid: nat)
    requires Inv(world, accepted, s) && ijid < |accepted| && ijid !in s.jobs
    ensures Inv(world, accepted, s.(handingImages := s.handingImages + {(name, ijid)}))
  {
    hide JobFacts, Ready;
    var s' := s.(handingImages := s.handingImages + {(name, ijid)});
    assert forall n, j: nat :: WaitsForImage(s'.images, s'.handingImages, n, j) <==>
                               WaitsForImage(s.images, s.handingImages, n, j) || (n, j) == (name, ijid);
    JobsKept(world, accepted, s, s');
  }

  /** Filing a job whose image is already there: it is the next, and only, one to be handed the image. */
  lemma ClaimImage(world: World, accepted: seq<Request>, s: State, before: Layers, ijid: nat, job: Job, name: string)
    requires Unfiled(world, accepted, s, before, ijid, job)
    requires job.spec.image.Some? && job.spec.image.value.name == name
    ensures Inv(world, accepted, s.(handingImages := {(name, ijid)}, jobs := s.jobs[ijid := job]))
  {
    hide Inv, JobFacts, Evaluated;
    var s' := s.(handingImages := {(name, ijid)});
    assert s.handingImages + {(name, ijid)} == {(name, ijid)};
    ClaimKeeps(world, accepted, s, name, ijid);
    UnfiledSlots(world, accepted, s, before, ijid, job);
    NewJobFacts(world, accepted[ijid], s', ijid, job.layers);
    assert forall n :: WaitsForImage(s'.images, s'.handingImages, n, ijid) ==>
                         WaitsForImage(s.images, {}, n, ijid) || n == name;
    NewJobFits(before, s', ijid, job);
    AddJob(world, accepted, s', ijid, job);
  }
}
