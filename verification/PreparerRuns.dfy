/**
 Whole runs of the preparer: any messages in any order, and any order in which the outside
 world gets round to answering.
 */
module PreparerRuns {
  import opened Wrappers
  import opened ContainerSpecs
  import opened CollapsedJobSpecs
  import opened JobPreparation
  import opened PreparerStates
  import opened LayerBuilding
  import opened Preparers
  import opened Sequences

  datatype Event =
    | PrepareJob(handle: Handle, job: ClientJobSpec)
    | AddContainer(handle: Handle, name: string, spec: ContainerSpec)
    | ImageFetched(name: string)
    | LayerBuilt(layer: LayerSpec)

  /** The outside world may report what it was asked for and has not reported yet. */
  predicate Due(p: Preparer, event: Event)
    reads p, p.builds
  {
    match event
    case ImageFetched(name) => Getting(p.Knowledge(), name)
    case LayerBuilt(spec) => Building(p.Knowledge(), spec)
    case _ => true
  }

  /**
   Every request accepted is waiting or has been answered once, with what the sequential preparation gives
   or with one of the request's own errors.
   */
  ghost predicate Accounted(p: Preparer)
    requires p.Valid()
    reads p, p.builds
  {
    && |p.preparedIds| == |p.prepared| && NoDuplicates(p.preparedIds)
    && (forall j :: 0 <= j < |p.accepted| ==> (j in p.jobs <==> j !in p.preparedIds))
    && (forall k :: 0 <= k < |p.prepared| ==>
          p.preparedIds[k] < |p.accepted| && Answers(p.world, p.accepted[p.preparedIds[k]], p.prepared[k]))
  }

  /** The containers known after some events. */
  function ContainersAfter(containers: Containers, events: seq<Event>): Containers {
    if events == [] then containers
    else
      var before := ContainersAfter(containers, events[..|events| - 1]);
      match events[|events| - 1]
      case AddContainer(_, name, spec) => before[name := spec]
      case _ => before
  }

  /** The requests among some events, each with the containers known when it was made. */
  function Requests(containers: Containers, events: seq<Event>): seq<Request> {
    if events == [] then []
    else
      var front := events[..|events| - 1];
      Requests(containers, front) +
      match events[|events| - 1]
      case PrepareJob(handle, job) => [Request(handle, job, ContainersAfter(containers, front))]
      case _ => []
  }

  /** What the preparer knows, has asked for and has answered at some moment. */
  datatype Snapshot = Snapshot(containers: Containers, known: Known, prepared: seq<(Handle, Outcome)>,
                               added: seq<(Handle, Option<ContainerSpec>)>)

  ghost function Now(p: Preparer): Snapshot
    reads p, p.builds
  {
    Snapshot(p.containers, p.Knowledge(), p.prepared, p.added)
  }

  /**
   What one event does. Nothing known is forgotten, and no request and no answer is taken back. A report
   that is due is recorded, and one that is not does nothing. Layers and images are asked for only where
   the event needs them, and a queued build starts only when another one ends, the longest-waiting first.
   */
  ghost predicate Follows(world: World, before: Snapshot, event: Event, after: Snapshot) {
    && Grows(before.known, after.known) && before.prepared <= after.prepared
    && match event
       case PrepareJob(_, job) =>
         && after.containers == before.containers && after.added == before.added
         && OnlyAsks(before.known, after.known, Collapse(job, before.containers))
       case AddContainer(handle, name, spec) =>
         var displaced := if name in before.containers then Some(before.containers[name]) else None;
         && after.containers == before.containers[name := spec] && after.added == before.added + [(handle, displaced)]
         && after.known == before.known && after.prepared == before.prepared
       case ImageFetched(name) =>
         if Getting(before.known, name) then
           && after.containers == before.containers && after.added == before.added
           && ImageRecorded(before.known, after.known, name, world.imageResult(name))
         else after == before
       case LayerBuilt(spec) =>
         if Building(before.known, spec) then
           && after.containers == before.containers && after.added == before.added
           && after.known == LayerRecorded(before.known, spec, world.layerResult(spec))
         else after == before
  }

  /** The snapshots of a run, one before each event and one at the end. */
  ghost predicate IsTrace(world: World, events: seq<Event>, trace: seq<Snapshot>) {
    && |trace| == |events| + 1
    && forall i :: 0 <= i < |events| ==> Follows(world, trace[i], events[i], trace[i + 1])
  }

  /** What holds between any two moments of a run, however far apart: nothing is lost in between. */
  lemma {:induction false} NothingForgotten(world: World, events: seq<Event>, trace: seq<Snapshot>, i: nat, j: nat)
    requires IsTrace(world, events, trace) && i <= j <= |events|
    ensures Grows(trace[i].known, trace[j].known)
    ensures trace[i].prepared <= trace[j].prepared && trace[i].added <= trace[j].added
    decreases j
  {
    hide OnlyAsks, ImageRecorded, LayerRecorded;
    if i == j {
    } else {
      NothingForgotten(world, events, trace, i, j - 1);
      assert Follows(world, trace[j - 1], events[j - 1], trace[j]);
      GrowsOn(trace[i].known, trace[j - 1].known, trace[j].known);
    }
  }

  /**
   Nothing is lost between two moments of a run, however far apart, and no image and no layer
   is asked for twice in all of it.
   */
  ghost predicate AskedOnce(trace: seq<Snapshot>)
    requires trace != []
  {
    var end := trace[|trace| - 1].known;
    && NoDuplicates(end.imagesRequested) && NoDuplicates(Builds(end))
    && forall i, j :: 0 <= i <= j < |trace| ==> Grows(trace[i].known, trace[j].known)
  }

  lemma TraceAskedOnce(world: World, p: Preparer, events: seq<Event>, trace: seq<Snapshot>)
    requires p.Valid() && IsTrace(world, events, trace) && trace[|events|] == Now(p)
    ensures AskedOnce(trace)
  {
    hide Inv, Ledger, Follows, Grows;
    p.BuildAccounting();
    forall i, j | 0 <= i <= j <= |events| ensures Grows(trace[i].known, trace[j].known) {
      NothingForgotten(world, events, trace, i, j);
    }
  }

  /** What is asked for, or started, after some moment of a run was not asked for, or started, before it. */
  lemma LaterRequestsAreNew(trace: seq<Snapshot>, i: nat, j: nat)
    requires trace != [] && AskedOnce(trace) && i <= j < |trace|
    ensures forall n :: |trace[i].known.imagesRequested| <= n < |trace[j].known.imagesRequested| ==>
              trace[j].known.imagesRequested[n] !in trace[i].known.imagesRequested
    ensures forall n :: |trace[i].known.buildsStarted| <= n < |trace[j].known.buildsStarted| ==>
              trace[j].known.buildsStarted[n] !in trace[i].known.buildsStarted
    ensures forall n :: |Builds(trace[i].known)| <= n < |Builds(trace[j].known)| ==>
              Builds(trace[j].known)[n] !in Builds(trace[i].known)
  {
    var before, after, end := trace[i].known, trace[j].known, trace[|trace| - 1].known;
    assert Grows(before, after) && Grows(after, end);
    hide AskedOnce;
    PrefixDistinct(after.imagesRequested, end.imagesRequested);
    LaterAreNew(before.imagesRequested, after.imagesRequested);
    PrefixDistinct(Builds(after), Builds(end));
    LaterAreNew(Builds(before), Builds(after));
    PrefixDistinct(after.buildsStarted, Builds(after));
    LaterAreNew(before.buildsStarted, after.buildsStarted);
  }

  /** Builds start in the order in which they were asked for. */
  lemma FirstAskedFirstStarted(trace: seq<Snapshot>, i: nat, j: nat, n: nat)
    requires trace != [] && AskedOnce(trace) && i <= j < |trace|
    requires n < |trace[j].known.buildsStarted|
    ensures n < |Builds(trace[i].known)| ==> trace[j].known.buildsStarted[n] == Builds(trace[i].known)[n]
  {
    assert Grows(trace[i].known, trace[j].known);
    assert Builds(trace[j].known)[n] == trace[j].known.buildsStarted[n];
  }

  lemma LaterAreNew<T>(before: seq<T>, after: seq<T>)
    requires before <= after && NoDuplicates(after)
    ensures forall n :: |before| <= n < |after| ==> after[n] !in before
  {
    forall n, m | 0 <= m < |before| <= n < |after| ensures before[m] != after[n] {
      assert after[m] == before[m];
    }
  }

  /** No image is on its way and no build is in flight. */
  predicate Quiet(p: Preparer)
    reads p, p.builds
  {
    p.builds.pending == 0 && forall name :: name in p.images ==> p.images[name].GotImage?
  }

  /** Deals with one event, unless it is a report that is not due. */
  method Deal(p: Preparer, world: World, event: Event)
    requires p.Valid() && p.world == world && p.nextIjid < 0xffff_ffff_ffff_ffff
    modifies p, p.builds
    ensures p.Valid() && p.nextIjid <= old(p.nextIjid) + 1
    ensures p.containers == ContainersAfter(old(p.containers), [event])
    ensures p.accepted == old(p.accepted) + Requests(old(p.containers), [event])
    ensures Follows(world, old(Now(p)), event, Now(p))
  {
    hide Inv, BuildsMatch, Ledger, Grows, OnlyAsks, ImageRecorded, LayerRecorded;
    assert [event][..0] == [];
    NothingAsked(p.Knowledge());
    if Due(p, event) {
      match event {
        case PrepareJob(handle, job) => p.ReceivePrepareJob(handle, job);
        case AddContainer(handle, name, spec) => p.ReceiveAddContainer(handle, name, spec);
        case ImageFetched(name) => p.ReceiveGotImage(name, world.imageResult(name));
        case LayerBuilt(spec) => p.ReceiveGotLayer(spec, world.layerResult(spec));
      }
    }
  }

  /**
   Any events in any order, from any state: the requests among them are accepted and the reports that
   are due are recorded; every request is accounted for, and if nothing is left outstanding, answered.
   */
  method Continue(p: Preparer, world: World, events: seq<Event>) returns (ghost trace: seq<Snapshot>)
    requires p.Valid() && p.world == world && p.nextIjid + |events| <= 0xffff_ffff_ffff_ffff
    modifies p, p.builds
    ensures p.Valid() && Accounted(p)
    ensures p.containers == ContainersAfter(old(p.containers), events)
    ensures p.accepted == old(p.accepted) + Requests(old(p.containers), events)
    ensures IsTrace(world, events, trace) && trace[0] == old(Now(p)) && trace[|events|] == Now(p)
    ensures AskedOnce(trace)
    ensures Quiet(p) ==> p.jobs == map[]
  {
    hide Preparer.Valid, Follows, AskedOnce;
    trace := [Now(p)];
    for i := 0 to |events|
      invariant p.Valid() && p.nextIjid <= old(p.nextIjid) + i
      invariant p.containers == ContainersAfter(old(p.containers), events[..i])
      invariant p.accepted == old(p.accepted) + Requests(old(p.containers), events[..i])
      invariant IsTrace(world, events[..i], trace) && trace[0] == old(Now(p)) && trace[i] == Now(p)
    {
      OneMoreEvent(old(p.containers), events, i);
      Deal(p, world, events[i]);
      trace := trace + [Now(p)];
    }
    assert events[..|events|] == events;
    AllAccounted(p);
    TraceAskedOnce(world, p, events, trace);
    if Quiet(p) {
      p.QuietMeansAnswered();
    }
  }

  lemma {:induction false} OneMoreEvent(containers: Containers, events: seq<Event>, i: nat)
    requires i < |events|
    ensures ContainersAfter(containers, events[..i + 1])
         == ContainersAfter(ContainersAfter(containers, events[..i]), [events[i]])
    ensures Requests(containers, events[..i + 1])
         == Requests(containers, events[..i]) + Requests(ContainersAfter(containers, events[..i]), [events[i]])
  {
    assert events[..i + 1][..i] == events[..i] && [events[i]][..0] == [];
  }

  /** Any run from the start. */
  method Run(world: World, maxPendingLayerBuilds: nat, events: seq<Event>)
    returns (p: Preparer, ghost trace: seq<Snapshot>)
    requires maxPendingLayerBuilds > 0 && |events| <= 0xffff_ffff_ffff_ffff
    ensures fresh(p) && fresh(p.builds) && p.Valid() && p.world == world && Accounted(p)
    ensures p.containers == ContainersAfter(map[], events) && p.accepted == Requests(map[], events)
    ensures IsTrace(world, events, trace) && trace[|events|] == Now(p)
    ensures trace[0] == Snapshot(map[], Known(map[], map[], [], [], []), [], [])
    ensures AskedOnce(trace)
    ensures Quiet(p) ==> p.jobs == map[]
  {
    p := new Preparer(maxPendingLayerBuilds, world, world.evaluateEnvironment);
    trace := Continue(p, world, events);
  }

  lemma AllAccounted(p: Preparer)
    requires p.Valid()
    ensures Accounted(p)
  {
    hide Answers, Inv, BuildsMatch;
  }

  ghost function ImagesGetting(images: Images): set<string> {
    set name | name in images && images[name].GettingImage?
  }

  ghost function LayersGetting(layers: Layers): set<LayerSpec> {
    set l | l in layers && layers[l].GettingLayer?
  }

  /** While some layer has no result, some build is in flight. */
  lemma SomeBuildInFlight(p: Preparer) returns (spec: LayerSpec)
    requires p.Valid() && LayersGetting(p.layers) != {}
    ensures Due(p, LayerBuilt(spec))
  {
    hide Inv, Ledger;
    p.BuildAccounting();
    var started := set l | l in p.builds.started;
    StartedCount(p.builds.started, p.builds.waiting);
    assert LayersGetting(p.layers) == set l | l in p.layers && p.layers[l].GettingLayer?;
    if started <= GotSet(p.layers) {
      MoreElements(started, GotSet(p.layers));
      assert false;
    }
    spec :| spec in started && spec !in GotSet(p.layers);
  }

  lemma StartedCount(started: seq<LayerSpec>, waiting: seq<LayerSpec>)
    requires NoDuplicates(started + waiting)
    ensures |set l | l in started| == |started|
  {
    PrefixDistinct(started, started + waiting);
    DistinctCount(started);
  }

  method ReportImage(p: Preparer, world: World, name: string)
    requires p.Valid() && p.world == world && Due(p, ImageFetched(name))
    modifies p, p.builds
    ensures p.Valid() && p.accepted == old(p.accepted)
    ensures |ImagesGetting(p.images)| < |old(ImagesGetting(p.images))|
    ensures Grows(old(p.Knowledge()), p.Knowledge()) && old(p.prepared) <= p.prepared
  {
    hide Preparer.Valid;
    Fewer(ImagesGetting(p.images), name);
    p.ReceiveGotImage(name, world.imageResult(name));
    assert ImagesGetting(p.images) == old(ImagesGetting(p.images)) - {name};
  }

  method ReportLayer(p: Preparer, world: World, spec: LayerSpec)
    requires p.Valid() && p.world == world && Due(p, LayerBuilt(spec))
    modifies p, p.builds
    ensures p.Valid() && p.accepted == old(p.accepted) && p.images == old(p.images)
    ensures |LayersGetting(p.layers)| < |old(LayersGetting(p.layers))|
    ensures Grows(old(p.Knowledge()), p.Knowledge()) && old(p.prepared) <= p.prepared
  {
    hide Preparer.Valid;
    Fewer(LayersGetting(p.layers), spec);
    p.ReceiveGotLayer(spec, world.layerResult(spec));
    assert LayersGetting(p.layers) == old(LayersGetting(p.layers)) - {spec};
  }

  /** Whatever has happened, every request can still be answered: report what is outstanding until nothing is. */
  method AnswerAll(p: Preparer, world: World)
    requires p.Valid() && p.world == world
    modifies p, p.builds
    ensures p.Valid() && Accounted(p) && Quiet(p) && p.jobs == map[] && p.accepted == old(p.accepted)
    ensures Grows(old(p.Knowledge()), p.Knowledge()) && old(p.prepared) <= p.prepared
  {
    hide Preparer.Valid, Accounted;
    while true
      invariant p.Valid() && p.accepted == old(p.accepted)
      invariant Grows(old(p.Knowledge()), p.Knowledge()) && old(p.prepared) <= p.prepared
      decreases |ImagesGetting(p.images)|, |LayersGetting(p.layers)|
    {
      if name :| name in p.images && p.images[name].GettingImage? {
        ReportImage(p, world, name);
      } else if l :| l in p.layers && p.layers[l].GettingLayer? {
        assert l in LayersGetting(p.layers);
        ghost var due := SomeBuildInFlight(p);
        var spec :| spec in p.builds.started && spec in p.layers && p.layers[spec].GettingLayer?;
        ReportLayer(p, world, spec);
      } else {
        break;
      }
    }
    assert LayersGetting(p.layers) == {};
    p.BuildAccounting();
    p.QuietMeansAnswered();
    AllAccounted(p);
  }

  lemma Fewer<T>(s: set<T>, x: T)
    requires x in s
    ensures |s - {x}| < |s|
  {
  }
}
