/**
 The job preparer (`preparer.rs`): one table of jobs sharing image fetches and layer
 builds, updated message by message in whatever order results arrive.
 */
module Preparers {
  import opened Wrappers
  import opened ContainerSpecs
  import opened CollapsedJobSpecs
  import opened JobPreparation
  import opened PreparerStates
  import opened LayerBuilding
  import opened Sequences

  /**
   Every accepted request is in exactly one place: among the jobs, answered once, or in
   `open`, the request being dealt with. Every answer is the sequential preparation's
   specification or one of the request's own errors.
   */
  ghost predicate Ledger(world: World, accepted: seq<Request>, jobs: Jobs, open: set<nat>,
                         ids: seq<nat>, prepared: seq<(Handle, Outcome)>) {
    && |ids| == |prepared| && NoDuplicates(ids)
    && (forall j :: 0 <= j < |accepted| ==> (j in jobs) || (j in ids) || (j in open))
    && (forall j :: j in jobs ==> j < |accepted| && j !in ids && j !in open)
    && (forall j :: j in open ==> j < |accepted| && j !in ids)
    && (forall k :: 0 <= k < |ids| ==> ids[k] < |accepted| && Answers(world, accepted[ids[k]], prepared[k]))
  }

  ghost predicate Answers(world: World, req: Request, answer: (Handle, Outcome)) {
    answer.0 == req.handle && Answered(world, req.job, req.containers, answer.1)
  }

  lemma Settle(world: World, accepted: seq<Request>, jobs: Jobs, open: set<nat>,
               ids: seq<nat>, prepared: seq<(Handle, Outcome)>, j: nat, answer: (Handle, Outcome))
    requires Ledger(world, accepted, jobs, open, ids, prepared)
    requires j < |accepted| && (j in jobs || j in open) && Answers(world, accepted[j], answer)
    ensures Ledger(world, accepted, jobs - {j}, open - {j}, ids + [j], prepared + [answer])
  {
    AppendDistinct(ids, j);
  }

  lemma KnownLayer(world: World, accepted: seq<Request>, s: State, l: LayerSpec)
    requires Inv(world, accepted, s) && l in s.layers && s.layers[l].GotLayer?
    ensures s.layers[l].result == world.layerResult(l)
  {
  }

  lemma InvParts(world: World, accepted: seq<Request>, s: State)
    requires Inv(world, accepted, s)
    ensures JobsOk(world, accepted, s) && WaitersOk(accepted, s) && ImageWaitersOk(accepted, s) && ResultsOk(world, s)
  {
  }

  lemma JobHandle(world: World, req: Request, s: State, ijid: nat, job: Job)
    requires JobFacts(world, req, s, ijid, job)
    ensures job.handle == req.handle
  {
  }

  /** A live job with a claim on an image is waiting for exactly that image. */
  lemma ClaimedJob(world: World, accepted: seq<Request>, s: State, name: string, ijid: nat)
    requires Inv(world, accepted, s) && (name, ijid) in s.handingImages && ijid in s.jobs
    requires name in s.images && s.images[name].GotImage?
    ensures ijid < |accepted| && JobFacts(world, accepted[ijid], s, ijid, s.jobs[ijid])
    ensures s.jobs[ijid].spec.image.Some? && s.jobs[ijid].spec.image.value.name == name
    ensures world.imageResult(name) == s.images[name].result
  {
    assert WaitsForImage(s.images, s.handingImages, name, ijid);
  }

  lemma TakeOut(world: World, accepted: seq<Request>, jobs: Jobs, ids: seq<nat>, prepared: seq<(Handle, Outcome)>,
                j: nat)
    requires Ledger(world, accepted, jobs, {}, ids, prepared) && j in jobs
    ensures Ledger(world, accepted, jobs - {j}, {j}, ids, prepared)
  {
  }

  lemma Replace(world: World, accepted: seq<Request>, jobs: Jobs, ids: seq<nat>, prepared: seq<(Handle, Outcome)>,
                j: nat, job: Job)
    requires Ledger(world, accepted, jobs, {}, ids, prepared) && j in jobs
    ensures Ledger(world, accepted, jobs[j := job], {}, ids, prepared)
  {
  }

  lemma Admit(world: World, accepted: seq<Request>, jobs: Jobs, ids: seq<nat>, prepared: seq<(Handle, Outcome)>,
              req: Request)
    requires Ledger(world, accepted, jobs, {}, ids, prepared)
    ensures Ledger(world, accepted + [req], jobs, {|accepted|}, ids, prepared)
  {
    hide Answers;
  }

  lemma Enter(world: World, accepted: seq<Request>, jobs: Jobs, ids: seq<nat>, prepared: seq<(Handle, Outcome)>,
              j: nat, job: Job)
    requires Ledger(world, accepted, jobs, {j}, ids, prepared)
    ensures Ledger(world, accepted, jobs[j := job], {}, ids, prepared)
  {
  }

  lemma UnfiledInv(world: World, accepted: seq<Request>, s: State, before: Layers, ijid: nat, job: Job)
    requires Unfiled(world, accepted, s, before, ijid, job)
    ensures Inv(world, accepted, s) && ijid < |accepted| && ijid !in s.jobs && job.handle == accepted[ijid].handle
    ensures Collapse(accepted[ijid].job, accepted[ijid].containers) == Ok(job.spec)
  {
  }

  lemma KnownImage(world: World, accepted: seq<Request>, s: State, name: string)
    requires Inv(world, accepted, s) && name in s.images && s.images[name].GotImage?
    ensures s.images[name].result == world.imageResult(name)
  {
  }

  lemma DistinctWaiting(world: World, accepted: seq<Request>, s: State, name: string)
    requires Inv(world, accepted, s) && name in s.images && s.images[name].GettingImage?
    ensures NoDuplicates(s.images[name].waiting)
  {
  }

  lemma DistinctWaiters(world: World, accepted: seq<Request>, s: State, l: LayerSpec)
    requires Inv(world, accepted, s) && l in s.layers && s.layers[l].GettingLayer?
    ensures NoDuplicates(s.layers[l].waiting)
  {
  }

  lemma NextHanded(name: string, waiting: seq<nat>, k: nat)
    requires NoDuplicates(waiting) && k < |waiting|
    ensures (name, waiting[k]) in HandingImages(name, waiting[k..])
    ensures HandingImages(name, waiting[k..]) - {(name, waiting[k])} == HandingImages(name, waiting[k + 1..])
  {
    assert waiting[k..] == [waiting[k]] + waiting[k + 1..];
  }

  lemma NextServed(l: LayerSpec, waiting: seq<Waiter>, k: nat)
    requires NoDuplicates(waiting) && k < |waiting|
    ensures (l, waiting[k]) in Handing(l, waiting[k..])
    ensures Handing(l, waiting[k..]) - {(l, waiting[k])} == Handing(l, waiting[k + 1..])
  {
    assert waiting[k..] == [waiting[k]] + waiting[k + 1..];
  }

  /** A live job being served a layer has that layer in the slot the waiter names. */
  lemma ServedJob(world: World, accepted: seq<Request>, s: State, l: LayerSpec, w: Waiter)
    requires Inv(world, accepted, s) && (l, w) in s.handingLayers && w.ijid in s.jobs
    requires l in s.layers && s.layers[l].GotLayer?
    ensures w.ijid < |accepted| && JobFacts(world, accepted[w.ijid], s, w.ijid, s.jobs[w.ijid])
    ensures w.index < |SpecsOf(s.jobs[w.ijid], w.image)| && SpecsOf(s.jobs[w.ijid], w.image)[w.index] == l
    ensures world.layerResult(l) == s.layers[l].result
  {
    assert Registered(s.layers, s.handingLayers, l, w);
    assert WaiterOk(s.jobs, l, w);
  }

  lemma MakeUnfiled(world: World, accepted: seq<Request>, s: State, before: Layers, ijid: nat, job: Job)
    requires Inv(world, accepted, s) && s.handingImages == {} && s.handingLayers == {}
    requires ijid < |accepted| && ijid !in s.jobs
    requires Collapse(accepted[ijid].job, accepted[ijid].containers) == Ok(job.spec)
    requires job.handle == accepted[ijid].handle && job.imageLayers == [] && |job.layers| == |job.spec.layers|
    requires Evaluated(before, s.layers, {}, ijid, false, job.spec.layers, job.layers)
    requires forall l, w :: Registered(before, {}, l, w) ==> w.ijid != ijid
    requires forall name :: !WaitsForImage(s.images, {}, name, ijid)
    ensures Unfiled(world, accepted, s, before, ijid, job)
  {
  }

  class Preparer {
    const evaluateEnvironment: EvaluateEnvironment
    const builds: LayerBuilds
    var containers: Containers
    var images: Images
    var layers: Layers
    var jobs: Jobs
    var nextIjid: nat

    // The calls made to the outside world, in order; `builds.started` records the layer builds.
    var imagesRequested: seq<string>
    var prepared: seq<(Handle, Outcome)>
    var added: seq<(Handle, Option<ContainerSpec>)>

    /** What the outside world answers, whenever it does. */
    ghost const world: World
    ghost var accepted: seq<Request>
    ghost var preparedIds: seq<nat>

    ghost function View(): State
      reads this
    {
      State(images, layers, jobs, {}, {})
    }

    function Knowledge(): Known
      reads this, builds
    {
      Known(images, layers, imagesRequested, builds.started, builds.waiting)
    }

    /** Everything but the tables' invariant, with `open` naming the requests being dealt with. */
    ghost predicate Framework(open: set<nat>)
      reads this, builds
    {
      && world.evaluateEnvironment == evaluateEnvironment
      && nextIjid == |accepted|
      && builds.Valid() && BuildsMatch(layers, builds.started, builds.waiting, builds.finished)
      && NoDuplicates(imagesRequested) && (forall name :: name in images <==> name in imagesRequested)
      && Ledger(world, accepted, jobs, open, preparedIds, prepared)
    }

    ghost predicate Valid()
      reads this, builds
    {
      Framework({}) && Inv(world, accepted, View())
    }

    constructor (maxPendingLayerBuilds: nat, ghost world: World, evaluateEnvironment: EvaluateEnvironment)
      requires maxPendingLayerBuilds > 0 && world.evaluateEnvironment == evaluateEnvironment
      ensures Valid() && fresh(builds) && this.world == world && builds.maxPending == maxPendingLayerBuilds
      ensures accepted == [] && jobs == map[] && containers == map[]
      ensures Knowledge() == Known(map[], map[], [], [], []) && prepared == [] && added == [] && nextIjid == 0
    {
      this.evaluateEnvironment := evaluateEnvironment;
      this.world := world;
      builds := new LayerBuilds(maxPendingLayerBuilds);
      containers, images, layers, jobs, nextIjid := map[], map[], map[], map[], 0;
      imagesRequested, prepared, added := [], [], [];
      accepted, preparedIds := [], [];
    }

    // ----- Answering

    method JobPrepared(handle: Handle, outcome: Outcome, ghost ijid: nat, ghost open: set<nat>)
      requires Framework(open) && ijid < |accepted| && ijid in open
      requires Answers(world, accepted[ijid], (handle, outcome))
      modifies this`prepared, this`preparedIds
      ensures Framework(open - {ijid})
      ensures prepared == old(prepared) + [(handle, outcome)] && preparedIds == old(preparedIds) + [ijid]
    {
      Settle(world, accepted, jobs, open, preparedIds, prepared, ijid, (handle, outcome));
      assert jobs - {ijid} == jobs;
      prepared := prepared + [(handle, outcome)];
      preparedIds := preparedIds + [ijid];
    }

    /** Answers the open request with a failure. */
    method Refuse(handle: Handle, err: Error, ghost ijid: nat)
      requires Framework({ijid}) && ijid < |accepted| && accepted[ijid].handle == handle
      requires CanFailWith(world, accepted[ijid].job, accepted[ijid].containers, err)
      modifies this`prepared, this`preparedIds
      ensures Framework({})
      ensures prepared == old(prepared) + [(handle, Err(err))] && preparedIds == old(preparedIds) + [ijid]
    {
      JobPrepared(handle, Err(err), ijid, {ijid});
      assert {ijid} - {ijid} == {};
    }

    /** `start_job`: the job is ready, and its answer is the sequential one. */
    method StartJob(job: Job, ghost ijid: nat, ghost open: set<nat>, ghost s: State)
      requires Framework(open) && ijid < |accepted| && ijid in open
      requires JobFacts(world, accepted[ijid], s, ijid, job) && ResultsOk(world, s) && Ready(job)
      modifies this`prepared, this`preparedIds
      ensures Framework(open - {ijid})
      ensures old(prepared) <= prepared && old(preparedIds) <= preparedIds
    {
      ReadyAgrees(world, accepted[ijid], s, ijid, job);
      FailsExactly(world, accepted[ijid].job, accepted[ijid].containers);
      var outcome := Complete(evaluateEnvironment, job.spec, Values(job.imageLayers) + Values(job.layers));
      JobPrepared(job.handle, outcome, ijid, open);
    }

    /** `job_error`: answers a live job with a failure; a job that is gone is left alone. */
    method JobError(ijid: nat, err: Error)
      requires Framework({})
      requires ijid in jobs ==> ijid < |accepted| && jobs[ijid].handle == accepted[ijid].handle
      requires ijid in jobs ==> CanFailWith(world, accepted[ijid].job, accepted[ijid].containers, err)
      modifies this`jobs, this`prepared, this`preparedIds
      ensures Framework({}) && jobs == old(jobs) - {ijid}
      ensures old(preparedIds) <= preparedIds
      ensures prepared
           == old(prepared) + if ijid in old(jobs) then [(old(jobs)[ijid].handle, Err(err))] else []
    {
      if ijid in jobs {
        var job := jobs[ijid];
        jobs := jobs - {ijid};
        JobPrepared(job.handle, Err(err), ijid, {ijid});
      } else {
        assert jobs - {ijid} == jobs;
      }
    }

    // ----- Layers

    /** One turn of `evaluate_layers`: use the layer's result, join its waiters, or ask for its build. */
    method EvaluateLayer(layer: LayerSpec, w: Waiter, ghost s: State, ghost open: set<nat>)
      returns (r: Result<Option<Artifact>, Error>)
      requires Framework(open) && Inv(world, accepted, s) && s.layers == layers
      requires w.ijid < |accepted| && w.ijid !in s.jobs
      requires layer in layers && layers[layer].GettingLayer? ==> !Registered(layers, s.handingLayers, layer, w)
      requires layer !in layers ==> !Registered(layers, s.handingLayers, layer, w)
      modifies this`layers, builds
      ensures Framework(open) && Inv(world, accepted, s.(layers := layers))
      ensures r.Err? ==> world.layerResult(layer) == Err(r.error) && layers == old(layers)
      ensures r.Err? ==> layer in layers && layers[layer] == GotLayer(Err(r.error))
      ensures r.Ok? && r.value.Some? ==>
                layer in layers && layers[layer] == GotLayer(Ok(r.value.value)) && layers == old(layers)
      ensures r.Ok? && r.value.None? ==> (layer in old(layers) ==> old(layers)[layer].GettingLayer?)
      ensures r.Ok? && r.value.None? ==> layers == AddWaiter(old(layers), layer, w)
      ensures if r.Err? then Knowledge() == old(Knowledge()) else AsksFor(old(Knowledge()), Knowledge(), [layer])
    {
      hide Inv, Ledger, AsksFor, Grows, BuildsMatch, NoDuplicates, LayerBuilds.Valid;
      if layer in layers && layers[layer].GotLayer? {
        KnownLayer(world, accepted, s, layer);
        match layers[layer].result {
          case Ok(a) =>
            AsksForKnown(Knowledge(), layer);
            return Ok(Some(a));
          case Err(e) => return Err(e);
        }
      }
      AddWaiterKeeps(world, accepted, s, layer, w);
      ghost var was, started, waiting := layers, builds.started, builds.waiting;
      if layer in layers {
        layers := layers[layer := GettingLayer(layers[layer].waiting + [w])];
      } else {
        NotRequested(layers, builds.started, builds.waiting, builds.finished, layer);
        builds.Push(layer);
        layers := layers[layer := GettingLayer([w])];
      }
      BuildsAfterAdd(was, started, waiting, builds.finished, builds.started, builds.waiting, layer, w);
      AsksForOne(old(Knowledge()), builds.started, builds.waiting, layer, w);
      return Ok(None);
    }

    /** `evaluate_layers`: stops at the first layer known to have failed. */
    method EvaluateLayers(specs: seq<LayerSpec>, ijid: nat, image: bool, ghost s: State, ghost open: set<nat>)
      returns (r: Result<Slots, Error>)
      requires Framework(open) && Inv(world, accepted, s) && s.layers == layers
      requires ijid < |accepted| && ijid !in s.jobs && NoneRegistered(layers, s.handingLayers, ijid, image)
      modifies this`layers, builds
      ensures Framework(open) && Inv(world, accepted, s.(layers := layers))
      ensures r.Ok? ==> |r.value| == |specs|
      ensures r.Ok? ==> Evaluated(old(layers), layers, s.handingLayers, ijid, image, specs, r.value)
      ensures r.Ok? ==> AsksFor(old(Knowledge()), Knowledge(), specs)
      ensures r.Err? ==> exists i :: 0 <= i < |specs| && world.layerResult(specs[i]) == Err(r.error)
                                  && specs[i] in layers && layers[specs[i]] == GotLayer(Err(r.error))
                                  && AsksFor(old(Knowledge()), Knowledge(), specs[..i])
      ensures Grows(old(Knowledge()), Knowledge()) && OnlyAdds(old(layers), layers, specs)
    {
      hide Inv, Framework, AsksFor, Grows, OnlyAdds;
      var slots: Slots := [];
      assert specs[..0] == [];
      AsksForNone(Knowledge());
      for index := 0 to |specs|
        invariant Framework(open) && Inv(world, accepted, s.(layers := layers))
        invariant |slots| == index
        invariant Evaluated(old(layers), layers, s.handingLayers, ijid, image, specs, slots)
        invariant AsksFor(old(Knowledge()), Knowledge(), specs[..index])
      {
        ghost var was, known := layers, Knowledge();
        if specs[index] !in layers || layers[specs[index]].GettingLayer? {
          EvaluatedMiss(old(layers), layers, s.handingLayers, ijid, image, specs, slots);
        }
        var slot := EvaluateLayer(specs[index], Waiter(image, ijid, index), s.(layers := layers), open);
        if slot.Err? {
          AsksForSome(old(Knowledge()), Knowledge(), specs, index);
          return Err(slot.error);
        }
        AsksForNext(old(Knowledge()), known, Knowledge(), specs, index);
        if slot.value.Some? {
          EvaluatedHit(old(layers), layers, s.handingLayers, ijid, image, specs, slots, slot.value.value);
        } else {
          AddWaiterRegisters(was, s.handingLayers, specs[index], Waiter(image, ijid, index));
        }
        slots := slots + [slot.value];
      }
      assert specs[..|specs|] == specs;
      AsksForSome(old(Knowledge()), Knowledge(), specs, |specs|);
      return Ok(slots);
    }

    // ----- Images

    /**
     `got_image_success`: integrates the image into a job that was waiting for it. Jobs that
     still wait for their turn with this image are in `handing`.
     */
    method GotImageSuccess(ijid: nat, image: ConvertedImage, ghost name: string, ghost handing: set<(string, nat)>)
      requires Framework({}) && Inv(world, accepted, State(images, layers, jobs, handing, {}))
      requires (name, ijid) in handing && name in images && images[name] == GotImage(Ok(image))
      modifies this`jobs, this`layers, this`prepared, this`preparedIds, builds
      ensures Framework({}) && Inv(world, accepted, State(images, layers, jobs, handing - {(name, ijid)}, {}))
      ensures old(prepared) <= prepared && old(preparedIds) <= preparedIds
      ensures Grows(old(Knowledge()), Knowledge()) && OnlyAdds(old(layers), layers, LayersOfImage(Ok(image)))
    {
      hide Ledger, Inv, JobFacts, Grows, OnlyAdds, CanFailWith;
      NothingAsked(Knowledge());
      ghost var s := State(images, layers, jobs, handing, {});
      ghost var rest := WithoutClaim(s, name, ijid);
      if ijid !in jobs {
        DropWaiters(world, accepted, s, handing - {(name, ijid)}, {});
        return;
      }
      var job := jobs[ijid];
      ClaimedJob(world, accepted, s, name, ijid);
      StartIntegrating(world, accepted, s, name, ijid);
      var integrated := Integrate(job.spec, image);
      if integrated.Err? {
        ImageFailure(world, accepted[ijid], s, ijid, job, Integrating(integrated.error));
        JobError(ijid, Integrating(integrated.error));
        assert State(images, layers, jobs, handing - {(name, ijid)}, {}) == rest;
        return;
      }
      IntegrateLayers(ijid, job, image, integrated.value, name, s);
    }

    method IntegrateLayers(ijid: nat, job: Job, image: ConvertedImage, spec: CollapsedJobSpec,
                           ghost name: string, ghost s: State)
      requires Framework({}) && Inv(world, accepted, s) && s == State(images, layers, jobs, s.handingImages, {})
      requires name in images && images[name] == GotImage(Ok(image))
      requires ijid in jobs && jobs[ijid] == job && ijid < |accepted|
      requires JobFacts(world, accepted[ijid], s, ijid, job)
      requires job.spec.image.Some? && job.spec.image.value.name == name && ReadyForImage(job.spec)
      requires Integrate(job.spec, image) == Ok(spec) && world.imageResult(name) == Ok(image)
      requires Inv(world, accepted, WithoutClaim(s, name, ijid)) && NoneRegistered(layers, {}, ijid, true)
      modifies this`jobs, this`layers, this`prepared, this`preparedIds, builds
      ensures Framework({}) && Inv(world, accepted, State(images, layers, jobs, s.handingImages - {(name, ijid)}, {}))
      ensures old(prepared) <= prepared && old(preparedIds) <= preparedIds
      ensures Grows(old(Knowledge()), Knowledge()) && OnlyAdds(old(layers), layers, LayersOfImage(Ok(image)))
    {
      hide Inv, Ledger, JobFacts, WaitersFit, Grows, OnlyAdds, AsksFor, CanFailWith;
      hide BuildsMatch, NoDuplicates, Evaluated, Registered, Integrate;
      ghost var rest := WithoutClaim(s, name, ijid);
      var imageLayers := EvaluateLayers(spec.imageLayers, ijid, true, rest, {});
      OnlyImageLayers(s.layers, layers, job.spec, image, spec);
      if imageLayers.Err? {
        ghost var i :| 0 <= i < |spec.imageLayers| && world.layerResult(spec.imageLayers[i]) == Err(imageLayers.error);
        ImageLayerFailure(world, accepted[ijid], s, ijid, job, image, spec, i, imageLayers.error);
        JobHandle(world, accepted[ijid], s, ijid, job);
        JobError(ijid, imageLayers.error);
        assert State(images, layers, jobs, s.handingImages - {(name, ijid)}, {}) == rest.(layers := layers);
        return;
      }
      var job' := Job(job.handle, spec, imageLayers.value, job.layers);
      ghost var s' := rest.(layers := layers);
      IntegratedJobFacts(world, accepted, s, layers, name, ijid, image, spec, imageLayers.value);
      InvParts(world, accepted, s);
      IntegratedJobFits(accepted, s, layers, name, ijid, spec, imageLayers.value);
      UpdateOrStart(ijid, job', s');
      assert State(images, layers, jobs, s.handingImages - {(name, ijid)}, {}) == s'.(jobs := jobs);
    }

    /** Writes an updated job back, or starts it if it has become ready; `rest` is the tables without it. */
    method UpdateOrStart(ijid: nat, job: Job, ghost rest: State)
      requires Framework({}) && ijid in jobs && ijid < |accepted|
      requires Inv(world, accepted, rest) && rest.jobs == jobs - {ijid}
      requires JobFacts(world, accepted[ijid], rest, ijid, job) && WaitersFit(rest, ijid, job)
      modifies this`jobs, this`prepared, this`preparedIds
      ensures Framework({}) && Inv(world, accepted, rest.(jobs := jobs))
      ensures jobs == if Ready(job) then old(jobs) - {ijid} else old(jobs)[ijid := job]
      ensures old(prepared) <= prepared && old(preparedIds) <= preparedIds
    {
      hide Inv, Ledger, JobFacts, WaitersFit;
      if Ready(job) {
        TakeOut(world, accepted, jobs, preparedIds, prepared, ijid);
        jobs := jobs - {ijid};
        InvParts(world, accepted, rest);
        StartJob(job, ijid, {ijid}, rest);
        assert {ijid} - {ijid} == {};
        assert rest.(jobs := jobs) == rest;
      } else {
        AddJob(world, accepted, rest, ijid, job);
        Replace(world, accepted, jobs, preparedIds, prepared, ijid, job);
        jobs := jobs[ijid := job];
        assert rest.jobs[ijid := job] == jobs;
      }
    }

    // ----- Messages

    /** `receive_prepare_job`: accepts a request, which is answered now or once what it waits for arrives. */
    method ReceivePrepareJob(handle: Handle, jobSpec: ClientJobSpec)
      requires Valid() && nextIjid < 0xffff_ffff_ffff_ffff
      modifies this, builds
      ensures Valid() && containers == old(containers)
      ensures accepted == old(accepted) + [Request(handle, jobSpec, containers)]
      ensures old(prepared) <= prepared && old(preparedIds) <= preparedIds
      ensures Grows(old(Knowledge()), Knowledge())
      ensures added == old(added)
      ensures OnlyAsks(old(Knowledge()), Knowledge(), Collapse(jobSpec, containers))
    {
      hide Inv, Ledger, BuildsMatch, Unfiled, Evaluated, Registered, WaitsForImage;
      hide Grows, OnlyAdds, Collapse, NoDuplicates;
      NothingAsked(Knowledge());
      var ijid := nextIjid;
      TakeIn(Request(handle, jobSpec, containers));
      nextIjid := nextIjid + 1;
      var collapsed := New(jobSpec, containers);
      if collapsed.Err? {
        Refuse(handle, Collapsing(collapsed.error), ijid);
        return;
      }
      PrepareCollapsed(ijid, handle, collapsed.value);
    }

    /** The part of `receive_prepare_job` after collapsing has succeeded. */
    method PrepareCollapsed(ijid: nat, handle: Handle, c: CollapsedJobSpec)
      requires Framework({ijid}) && Inv(world, accepted, View()) && ijid < |accepted| && ijid !in jobs
      requires accepted[ijid].handle == handle && Collapse(accepted[ijid].job, accepted[ijid].containers) == Ok(c)
      requires forall l, w :: Registered(layers, {}, l, w) ==> w.ijid != ijid
      requires forall name :: !WaitsForImage(images, {}, name, ijid)
      modifies this`jobs, this`images, this`layers, this`imagesRequested, this`prepared, this`preparedIds, builds
      ensures Valid()
      ensures old(prepared) <= prepared && old(preparedIds) <= preparedIds
      ensures Grows(old(Knowledge()), Knowledge()) && OnlyAsks(old(Knowledge()), Knowledge(), Ok(c))
    {
      hide Inv, Ledger, BuildsMatch, Unfiled, Evaluated, Registered, WaitsForImage;
      hide Grows, OnlyAdds, AsksFor, OnlyAsks, LayersAtHand, CanFailWith;
      ghost var before := layers;
      CollapsedIsReady(accepted[ijid].job, accepted[ijid].containers);
      var evaluated := EvaluateLayers(c.layers, ijid, false, View(), {ijid});
      if evaluated.Err? {
        ghost var i :| 0 <= i < |c.layers| && world.layerResult(c.layers[i]) == Err(evaluated.error);
        OwnLayerFailure(world, accepted[ijid], i, evaluated.error);
        OnlyAsksRefused(old(Knowledge()), Knowledge(), c);
        Refuse(handle, evaluated.error, ijid);
        return;
      }
      var job := Job(handle, c, [], evaluated.value);
      MakeUnfiled(world, accepted, View(), before, ijid, job);
      ghost var between := Knowledge();
      PlaceNewJob(ijid, job, before);
      GrowsOn(old(Knowledge()), between, Knowledge());
      OnlyAsksInTurn(old(Knowledge()), between, Knowledge(), c);
    }

    /** The request becomes the open one; nothing in the tables refers to it. */
    ghost method TakeIn(req: Request)
      requires Valid()
      modifies this`accepted
      ensures accepted == old(accepted) + [req]
      ensures world.evaluateEnvironment == evaluateEnvironment && builds.Valid()
      ensures BuildsMatch(layers, builds.started, builds.waiting, builds.finished)
      ensures Ledger(world, accepted, jobs, {nextIjid}, preparedIds, prepared)
      ensures Inv(world, accepted, View()) && nextIjid !in jobs
      ensures forall l, w :: Registered(layers, {}, l, w) ==> w.ijid != nextIjid
      ensures forall name :: !WaitsForImage(images, {}, name, nextIjid)
    {
      Accept(world, accepted, View(), req);
      Admit(world, accepted, jobs, preparedIds, prepared, req);
      accepted := accepted + [req];
    }

    /** The second half of `receive_prepare_job`: files the job under its image, starts it or lets it wait. */
    method PlaceNewJob(ijid: nat, job: Job, ghost before: Layers)
      requires Framework({ijid}) && Unfiled(world, accepted, View(), before, ijid, job)
      modifies this`jobs, this`images, this`layers, this`imagesRequested, this`prepared, this`preparedIds, builds
      ensures Valid()
      ensures old(prepared) <= prepared && old(preparedIds) <= preparedIds
      ensures Grows(old(Knowledge()), Knowledge())
      ensures OnlyAdds(old(layers), layers, LayersAtHand(old(images), job.spec))
      ensures forall name :: name in images ==> name in old(images) || NamesImage(job.spec, name)
    {
      hide Inv, Ledger, Unfiled, BuildsMatch, Grows, OnlyAdds, LayersAtHand;
      NothingAsked(Knowledge());
      UnfiledInv(world, accepted, View(), before, ijid, job);
      if job.spec.image.Some? {
        var imageName := job.spec.image.value.name;
        if imageName in images && images[imageName].GotImage? {
          UseImage(ijid, job, imageName, before);
        } else {
          AwaitImage(ijid, job, imageName, before);
        }
      } else if Ready(job) {
        UnfiledFacts(world, accepted, View(), before, ijid, job);
        StartJob(job, ijid, {ijid}, View());
        assert {ijid} - {ijid} == {};
      } else {
        FileJob(world, accepted, View(), before, ijid, job);
        Enter(world, accepted, jobs, preparedIds, prepared, ijid, job);
        jobs := jobs[ijid := job];
      }
    }

    /** The image has not arrived: the job joins the fetch, which it may be the first to ask for. */
    method AwaitImage(ijid: nat, job: Job, imageName: string, ghost before: Layers)
      requires Framework({ijid}) && Unfiled(world, accepted, View(), before, ijid, job)
      requires job.spec.image.Some? && job.spec.image.value.name == imageName
      requires imageName in images ==> images[imageName].GettingImage?
      modifies this`jobs, this`images, this`imagesRequested
      ensures Valid()
      ensures imagesRequested
           == if imageName in old(images) then old(imagesRequested) else old(imagesRequested) + [imageName]
      ensures Grows(old(Knowledge()), Knowledge())
      ensures forall name :: name in images ==> name in old(images) || name == imageName
    {
      hide Inv, Ledger, Unfiled, BuildsMatch, Grows, NoDuplicates, LayerBuilds.Valid;
      GrowsByImage(Knowledge(), imageName, ijid);
      FileUnderImage(world, accepted, View(), before, ijid, job, imageName);
      Enter(world, accepted, jobs, preparedIds, prepared, ijid, job);
      jobs := jobs[ijid := job];
      if imageName !in images {
        AppendDistinct(imagesRequested, imageName);
        images := images[imageName := GettingImage([ijid])];
        imagesRequested := imagesRequested + [imageName];
      } else {
        images := images[imageName := GettingImage(images[imageName].waiting + [ijid])];
      }
    }

    /** The image is already there, or known to be unobtainable. */
    method UseImage(ijid: nat, job: Job, imageName: string, ghost before: Layers)
      requires Framework({ijid}) && Unfiled(world, accepted, View(), before, ijid, job)
      requires job.spec.image.Some? && job.spec.image.value.name == imageName
      requires imageName in images && images[imageName].GotImage?
      modifies this`jobs, this`layers, this`prepared, this`preparedIds, builds
      ensures Valid()
      ensures old(prepared) <= prepared && old(preparedIds) <= preparedIds
      ensures Grows(old(Knowledge()), Knowledge())
      ensures OnlyAdds(old(layers), layers, LayersAtHand(images, job.spec))
    {
      hide Inv, Ledger, Unfiled, BuildsMatch, Grows, OnlyAdds, CanFailWith, LayersOfImage;
      NothingAsked(Knowledge());
      ghost var s := View();
      UnfiledInv(world, accepted, s, before, ijid, job);
      ClaimImage(world, accepted, s, before, ijid, job, imageName);
      KnownImage(world, accepted, s, imageName);
      Enter(world, accepted, jobs, preparedIds, prepared, ijid, job);
      jobs := jobs[ijid := job];
      match images[imageName].result {
        case Ok(image) =>
          GotImageSuccess(ijid, image, imageName, {(imageName, ijid)});
          assert {(imageName, ijid)} - {(imageName, ijid)} == {};
        case Err(err) =>
          OwnImageFailure(world, accepted[ijid], err);
          JobError(ijid, err);
          assert View() == s;
      }
    }

    /** `receive_add_container`: later requests see the new container, earlier ones keep what they saw. */
    method ReceiveAddContainer(handle: Handle, name: string, spec: ContainerSpec)
      requires Valid()
      modifies this`containers, this`added
      ensures Valid() && containers == old(containers)[name := spec]
      ensures added == old(added) + [(handle, if name in old(containers) then Some(old(containers)[name]) else None)]
    {
      var was := if name in containers then Some(containers[name]) else None;
      containers := containers[name := spec];
      added := added + [(handle, was)];
    }

    /** `receive_got_image`: the answer to the one request for this image. */
    method ReceiveGotImage(name: string, result: Result<ConvertedImage, Error>)
      requires Valid() && name in images && images[name].GettingImage? && result == world.imageResult(name)
      modifies this`jobs, this`images, this`layers, this`prepared, this`preparedIds, builds
      ensures Valid() && images == old(images)[name := GotImage(result)]
      ensures old(prepared) <= prepared && old(preparedIds) <= preparedIds
      ensures Grows(old(Knowledge()), Knowledge()) && ImageRecorded(old(Knowledge()), Knowledge(), name, result)
    {
      hide Inv, Ledger, Grows, OnlyAdds, LayersOfImage;
      ImageKnown(Knowledge(), name, result);
      var waiting := images[name].waiting;
      ImageArrives(world, accepted, View(), name);
      DistinctWaiting(world, accepted, View(), name);
      images := images[name := GotImage(result)];
      for k := 0 to |waiting|
        invariant old(prepared) <= prepared && old(preparedIds) <= preparedIds
        invariant Framework({}) && images == old(images)[name := GotImage(result)]
        invariant Grows(old(Knowledge()), Knowledge()) && OnlyAdds(old(layers), layers, LayersOfImage(result))
        invariant Inv(world, accepted, State(images, layers, jobs, HandingImages(name, waiting[k..]), {}))
      {
        ghost var known := Knowledge();
        NextHanded(name, waiting, k);
        match result {
          case Ok(image) =>
            GotImageSuccess(waiting[k], image, name, HandingImages(name, waiting[k..]));
          case Err(err) =>
            HandImageError(waiting[k], err, name, HandingImages(name, waiting[k..]));
            NothingAsked(known);
        }
        GrowsOn(old(Knowledge()), known, Knowledge());
        OnlyAddsOn(old(layers), known.layers, layers, LayersOfImage(result));
      }
      assert HandingImages(name, waiting[|waiting|..]) == {};
    }

    method HandImageError(ijid: nat, err: Error, ghost name: string, ghost handing: set<(string, nat)>)
      requires Framework({}) && Inv(world, accepted, State(images, layers, jobs, handing, {}))
      requires (name, ijid) in handing && name in images && images[name] == GotImage(Err(err))
      modifies this`jobs, this`prepared, this`preparedIds
      ensures Framework({}) && Inv(world, accepted, State(images, layers, jobs, handing - {(name, ijid)}, {}))
      ensures old(prepared) <= prepared && old(preparedIds) <= preparedIds
    {
      ghost var s := State(images, layers, jobs, handing, {});
      hide Ledger, Inv, JobFacts;
      if ijid in jobs {
        ClaimedJob(world, accepted, s, name, ijid);
        ImageFailure(world, accepted[ijid], s, ijid, jobs[ijid], err);
        JobHandle(world, accepted[ijid], s, ijid, jobs[ijid]);
      }
      RemoveJob(world, accepted, s, ijid);
      JobError(ijid, err);
      DropWaiters(world, accepted, s.(jobs := s.jobs - {ijid}), handing - {(name, ijid)}, {});
    }

    /** `receive_got_layer`: the answer to a build in flight. */
    method ReceiveGotLayer(spec: LayerSpec, result: Result<Artifact, Error>)
      requires Valid() && spec in builds.started && spec in layers && layers[spec].GettingLayer?
      requires result == world.layerResult(spec)
      modifies this`jobs, this`layers, this`prepared, this`preparedIds, builds
      ensures Valid() && layers == old(layers)[spec := GotLayer(result)]
      ensures old(prepared) <= prepared && old(preparedIds) <= preparedIds
      ensures Grows(old(Knowledge()), Knowledge())
      ensures Knowledge() == LayerRecorded(old(Knowledge()), spec, result)
    {
      hide Inv, Ledger, Grows, BuildsMatch;
      var waiting := layers[spec].waiting;
      LayerArrives(world, accepted, View(), spec);
      DistinctWaiters(world, accepted, View(), spec);
      InFlightCounts(layers, builds.started, builds.waiting, builds.finished, spec);
      ghost var started, queued, finished := builds.started, builds.waiting, builds.finished;
      builds.Pop();
      BuildsAfterResult(layers, started, queued, finished, builds.started, builds.waiting, spec, result);
      layers := layers[spec := GotLayer(result)];
      ghost var served := Knowledge();
      LayerKnown(old(Knowledge()), spec, result);
      for k := 0 to |waiting|
        invariant old(prepared) <= prepared && old(preparedIds) <= preparedIds
        invariant Framework({}) && layers == old(layers)[spec := GotLayer(result)]
        invariant Knowledge() == served
        invariant Inv(world, accepted, State(images, layers, jobs, {}, Handing(spec, waiting[k..])))
      {
        NextServed(spec, waiting, k);
        match result {
          case Ok(artifact) =>
            HandLayer(spec, waiting[k], artifact, Handing(spec, waiting[k..]));
          case Err(err) =>
            HandLayerError(spec, waiting[k], err, Handing(spec, waiting[k..]));
        }
      }
      assert Handing(spec, waiting[|waiting|..]) == {};
    }

    /** Fills one waiter's slot and starts the job if that was the last. */
    method HandLayer(spec: LayerSpec, w: Waiter, artifact: Artifact, ghost handing: set<(LayerSpec, Waiter)>)
      requires Framework({}) && Inv(world, accepted, State(images, layers, jobs, {}, handing))
      requires (spec, w) in handing && spec in layers && layers[spec] == GotLayer(Ok(artifact))
      modifies this`jobs, this`prepared, this`preparedIds
      ensures Framework({}) && Inv(world, accepted, State(images, layers, jobs, {}, handing - {(spec, w)}))
      ensures old(prepared) <= prepared && old(preparedIds) <= preparedIds
    {
      ghost var s := State(images, layers, jobs, {}, handing);
      hide Ledger, Inv, JobFacts, WaitersFit;
      if w.ijid !in jobs {
        DropWaiters(world, accepted, s, {}, handing - {(spec, w)});
        return;
      }
      var job := jobs[w.ijid];
      FillSlot(world, accepted, s, spec, w, artifact);
      var slots := if w.image then job.imageLayers else job.layers;
      slots := slots[w.index := Some(artifact)];
      job := if w.image then job.(imageLayers := slots) else job.(layers := slots);
      UpdateOrStart(w.ijid, job, Serving(s, spec, w));
    }

    method HandLayerError(spec: LayerSpec, w: Waiter, err: Error, ghost handing: set<(LayerSpec, Waiter)>)
      requires Framework({}) && Inv(world, accepted, State(images, layers, jobs, {}, handing))
      requires (spec, w) in handing && spec in layers && layers[spec] == GotLayer(Err(err))
      modifies this`jobs, this`prepared, this`preparedIds
      ensures Framework({}) && Inv(world, accepted, State(images, layers, jobs, {}, handing - {(spec, w)}))
      ensures old(prepared) <= prepared && old(preparedIds) <= preparedIds
    {
      ghost var s := State(images, layers, jobs, {}, handing);
      hide Ledger, Inv, JobFacts;
      if w.ijid in jobs {
        ServedJob(world, accepted, s, spec, w);
        LayerFailure(world, accepted[w.ijid], s, w.ijid, jobs[w.ijid], spec, w, err);
        JobHandle(world, accepted[w.ijid], s, w.ijid, jobs[w.ijid]);
      }
      RemoveJob(world, accepted, s, w.ijid);
      JobError(w.ijid, err);
      DropWaiters(world, accepted, s.(jobs := s.jobs - {w.ijid}), {}, handing - {(spec, w)});
    }

    // ----- Whole runs

    /** With no build in flight and no image on its way, every accepted request has been answered. */
    lemma QuietMeansAnswered()
      requires Valid() && builds.pending == 0
      requires forall name :: name in images ==> images[name].GotImage?
      ensures jobs == map[]
      ensures |preparedIds| == |prepared| && NoDuplicates(preparedIds)
      ensures forall j :: 0 <= j < |accepted| ==> j in preparedIds
    {
      hide Inv, JobFacts, Answers;
      BuildAccounting();
      var getting := set l | l in layers && layers[l].GettingLayer?;
      assert getting == {};
      assert forall l :: l in layers ==> l !in getting;
      NobodyWaits(world, accepted, View());
    }

    /** Builds issued less results received are the builds in flight, never more than the limit. */
    lemma BuildAccounting()
      requires Valid()
      ensures |builds.started| - |GotSet(layers)| == builds.pending <= builds.maxPending
      ensures builds.waiting != [] ==> builds.pending == builds.maxPending
      ensures |set l | l in layers && layers[l].GettingLayer?| == builds.pending + |builds.waiting|
      ensures NoDuplicates(builds.started + builds.waiting) && NoDuplicates(imagesRequested)
    {
      GettingCount(layers, builds.started, builds.waiting, builds.finished);
    }
  }

  lemma AlwaysReady(world: World, req: Request, s: State, ijid: nat, job: Job)
    requires JobFacts(world, req, s, ijid, job) && s.handingImages == {} && s.handingLayers == {}
    requires forall name :: name in s.images ==> s.images[name].GotImage?
    requires forall l :: l in s.layers ==> s.layers[l].GotLayer?
    ensures Ready(job)
  {
    assert forall l, w :: !Registered(s.layers, s.handingLayers, l, w);
    assert forall name :: !WaitsForImage(s.images, s.handingImages, name, ijid);
  }

  lemma NobodyWaits(world: World, accepted: seq<Request>, s: State)
    requires Inv(world, accepted, s) && s.handingImages == {} && s.handingLayers == {}
    requires forall name :: name in s.images ==> s.images[name].GotImage?
    requires forall l :: l in s.layers ==> s.layers[l].GotLayer?
    ensures s.jobs == map[]
  {
    forall j | j in s.jobs ensures false {
      AlwaysReady(world, accepted[j], s, j, s.jobs[j]);
    }
  }

  /**
   Whatever the order in which two preparers heard of the same results, they answer the same request alike:
   with the same specification, or both with an error; with the same error if the request has only one.
   */
  lemma OrderDoesNotMatter(p: Preparer, q: Preparer, i: nat, k: nat)
    requires p.Valid() && q.Valid() && p.world == q.world
    requires i < |p.prepared| && k < |q.prepared| && i < |p.preparedIds| && k < |q.preparedIds|
    requires p.preparedIds[i] < |p.accepted| && q.preparedIds[k] < |q.accepted|
    requires p.accepted[p.preparedIds[i]] == q.accepted[q.preparedIds[k]]
    ensures p.prepared[i].0 == q.prepared[k].0
    ensures Agree(p.prepared[i].1, q.prepared[k].1)
    ensures OneError(p.world, p.accepted[p.preparedIds[i]]) ==> p.prepared[i] == q.prepared[k]
  {
    hide Inv, BuildsMatch, Answers, OneError;
    var req := p.accepted[p.preparedIds[i]];
    assert Answers(p.world, req, p.prepared[i]);
    assert Answers(q.world, req, q.prepared[k]);
    AnswersAgree(p.world, req, p.prepared[i], q.prepared[k]);
  }

  lemma AnswersAgree(world: World, req: Request, a: (Handle, Outcome), b: (Handle, Outcome))
    requires Answers(world, req, a) && Answers(world, req, b)
    ensures a.0 == b.0 && Agree(a.1, b.1) && (OneError(world, req) ==> a == b)
  {
    hide CanFailWith;
    FailsExactly(world, req.job, req.containers);
  }

  ghost predicate OneError(world: World, req: Request) {
    forall e, e' ::
      CanFailWith(world, req.job, req.containers, e) && CanFailWith(world, req.job, req.containers, e') ==> e == e'
  }
}
