/**
 Preparing a job one step after the other, with every fetch and build answered on the
 spot: the meaning that the concurrent preparer is held against.
 */
module JobPreparation {
  import opened Wrappers
  import opened ContainerSpecs
  import opened CollapsedJobSpecs

  datatype ArtifactType = TarArtifact | ManifestArtifact

  /** A built layer: its digest and the kind of artifact. */
  datatype Artifact = Artifact(digest: string, kind: ArtifactType)

  datatype CheckError = SysMountWithLocalNetwork | NoLayers

  datatype Error =
    | Collapsing(c: CollapseError)
    | Integrating(s: SpecError)
    | Checking(k: CheckError)
    | Remote(message: string)

  datatype RootOverlay = NoOverlay | TmpOverlay | LocalOverlay(capture: CaptureFileSystemChanges)

  /** The specification that is handed to the broker. */
  datatype JobSpec = JobSpec(
    options: JobOptions,
    environment: seq<string>,
    layers: seq<Artifact>,
    mounts: seq<JobMount>,
    network: JobNetwork,
    rootOverlay: RootOverlay,
    workingDirectory: Path,
    user: nat,
    group: nat)

  type Outcome = Result<JobSpec, Error>

  type EvaluateEnvironment = (map<string, string>, seq<EnvironmentSpec>) -> Result<seq<string>, Error>

  /** How the outside world answers each image fetch, layer build and environment evaluation. */
  datatype World = World(
    imageResult: string -> Result<ConvertedImage, Error>,
    layerResult: LayerSpec -> Result<Artifact, Error>,
    evaluateEnvironment: EvaluateEnvironment)

  // ----- Integrating an image

  /** What `integrate_image` asserts before it overwrites a field. */
  predicate ReadyForImage(c: CollapsedJobSpec) {
    && c.image.Some?
    && c.imageLayers == [] && c.initialEnvironment == map[]
    && (ImageWorkingDirectory in c.image.value.uses ==> c.workingDirectory.None?)
  }

  function Integrate(c: CollapsedJobSpec, image: ConvertedImage): (r: Result<CollapsedJobSpec, SpecError>)
    requires ReadyForImage(c)
    ensures r.Ok? ==> r.value.image.None? && r.value.layers == c.layers
  {
    var uses := c.image.value.uses;
    var layers := if ImageLayers in uses then TarLayers(image.layers) else Ok([]);
    if layers.Err? then Err(layers.error)
    else
      var variables := if ImageEnvironment in uses then ImageVariables(image) else Ok(map[]);
      if variables.Err? then Err(variables.error)
      else
        var directory := if ImageWorkingDirectory in uses then image.workingDirectory else c.workingDirectory;
        Ok(c.(image := None, imageLayers := layers.value, initialEnvironment := variables.value,
              workingDirectory := directory))
  }

  predicate HasNonUtf8Layer(image: ConvertedImage) {
    exists i :: 0 <= i < |image.layers| && image.layers[i].NotUtf8?
  }

  predicate HasBadVariable(image: ConvertedImage) {
    image.environment.Some? && exists i :: 0 <= i < |image.environment.value| && '=' !in image.environment.value[i]
  }

  /** What a job has from its image: the fields selected, and of the others what it had before. */
  ghost predicate ImageTaken(c: CollapsedJobSpec, image: ConvertedImage, c': CollapsedJobSpec)
    requires c.image.Some?
  {
    var uses := c.image.value.uses;
    && c' == c.(image := None, imageLayers := c'.imageLayers, initialEnvironment := c'.initialEnvironment,
                workingDirectory := c'.workingDirectory)
    && (if ImageLayers in uses then AreTarLayers(image.layers, c'.imageLayers) else c'.imageLayers == [])
    && (if ImageEnvironment in uses && image.environment.Some?
        then AreBindings(image.environment.value, c'.initialEnvironment)
        else c'.initialEnvironment == map[])
    && c'.workingDirectory == if ImageWorkingDirectory in uses then image.workingDirectory else c.workingDirectory
  }

  /** The layers of an image, one for one. */
  predicate AreTarLayers(layers: seq<LayerPath>, specs: seq<LayerSpec>) {
    && |specs| == |layers|
    && forall i :: 0 <= i < |layers| ==> layers[i].Utf8? && specs[i] == Tar(layers[i].path)
  }

  /** When integrating an image fails, and what it comes to if it does not. */
  lemma IntegrateMeans(c: CollapsedJobSpec, image: ConvertedImage)
    requires ReadyForImage(c)
    ensures
      var r := Integrate(c, image);
      && (r == Err(NonUtf8Layer) <==> ImageLayers in c.image.value.uses && HasNonUtf8Layer(image))
      && (r == Err(InvalidVariable) <==>
          r != Err(NonUtf8Layer) && ImageEnvironment in c.image.value.uses && HasBadVariable(image))
      && (r.Ok? ==> ImageTaken(c, image, r.value))
  {
    TarLayersAre(image.layers);
    if image.environment.Some? {
      VariablesAre(image.environment.value);
    }
  }

  /** Whatever a job collapses to satisfies what `integrate_image` and `check` assert. */
  lemma CollapsedIsReady(job: ClientJobSpec, containers: Containers)
    requires Collapse(job, containers).Ok?
    ensures
      var c := Collapse(job, containers).value;
      && c.imageLayers == [] && c.initialEnvironment == map[]
      && (c.image.Some? ==> ReadyForImage(c) && c.image.value.uses != {})
  {
    var c := Collapse(job, containers).value;
    if c.image.Some? && ImageWorkingDirectory in c.image.value.uses {
      var s := job.container;
      assert TakesFromImage(containers, s, ImageWorkingDirectory);
      NoScalarBelowImage(containers, s.parent, {});
    }
  }

  /** If the working directory's walk ends at an image, no container on the way sets it. */
  lemma {:induction false} NoScalarBelowImage(containers: Containers, parent: Option<ContainerParent>,
                                              seen: set<string>)
    requires InheritedImage(containers, parent, UseWorkingDirectory, seen).Some?
    ensures InheritedScalar(containers, parent, UseWorkingDirectory, WorkingDirectoryOf, seen) == None
    decreases containers.Keys - seen
  {
    if parent.value.Image? {
    } else {
      var name := parent.value.container.name;
      NoScalarBelowImage(containers, containers[name].parent, seen + {name});
    }
  }

  // ----- Finishing

  function Check(c: CollapsedJobSpec): Result<(), CheckError> {
    if c.network == Some(Local) && (exists m :: m in c.mounts && m.Sys?) then Err(SysMountWithLocalNetwork)
    else if c.layers == [] && c.imageLayers == [] then Err(NoLayers)
    else Ok(())
  }

  function IntoJobSpec(c: CollapsedJobSpec, layers: seq<Artifact>, environment: seq<string>): Outcome
    requires c.image.None? && |layers| == |c.imageLayers| + |c.layers|
  {
    match Check(c)
    case Err(e) => Err(Checking(e))
    case Ok(_) =>
      assert layers != [];
      var overlay :=
        if c.options.captureFileSystemChanges.Some? then LocalOverlay(c.options.captureFileSystemChanges.value)
        else if c.enableWritableFileSystem == Some(true) then TmpOverlay
        else NoOverlay;
      Ok(JobSpec(c.options, environment, layers, c.mounts,
                 if c.network.Some? then c.network.value else Disabled,
                 overlay,
                 if c.workingDirectory.Some? then c.workingDirectory.value else "/",
                 if c.user.Some? then c.user.value else 0,
                 if c.group.Some? then c.group.value else 0))
  }

  /** The environment is evaluated before the specification is checked. */
  function Complete(evaluate: EvaluateEnvironment, c: CollapsedJobSpec, layers: seq<Artifact>): Outcome
    requires c.image.None? && |layers| == |c.imageLayers| + |c.layers|
  {
    match evaluate(c.initialEnvironment, c.environment)
    case Err(e) => Err(e)
    case Ok(environment) => IntoJobSpec(c, layers, environment)
  }

  // ----- All of it in sequence

  function Resolve(world: World, layers: seq<LayerSpec>): (r: Result<seq<Artifact>, Error>)
    ensures r.Ok? ==> |r.value| == |layers|
  {
    if layers == [] then Ok([])
    else
      var n := |layers| - 1;
      match Resolve(world, layers[..n])
      case Err(e) => Err(e)
      case Ok(front) =>
        match world.layerResult(layers[n])
        case Err(e) => Err(e)
        case Ok(a) => Ok(front + [a])
  }

  /** The collapsed specification after its image, if it has one, has been fetched and integrated. */
  function WithImage(world: World, c: CollapsedJobSpec): (r: Result<CollapsedJobSpec, Error>)
    requires c.image.Some? ==> ReadyForImage(c)
    ensures r.Ok? ==> r.value.image.None? && r.value.layers == c.layers
  {
    if c.image.None? then Ok(c)
    else
      match world.imageResult(c.image.value.name)
      case Err(e) => Err(e)
      case Ok(image) =>
        match Integrate(c, image)
        case Err(e) => Err(Integrating(e))
        case Ok(c') => Ok(c')
  }

  function Sequential(world: World, job: ClientJobSpec, containers: Containers): Outcome {
    match Collapse(job, containers)
    case Err(e) => Err(Collapsing(e))
    case Ok(c) =>
      CollapsedIsReady(job, containers);
      match WithImage(world, c)
      case Err(e) => Err(e)
      case Ok(c') =>
        match Resolve(world, c'.imageLayers)
        case Err(e) => Err(e)
        case Ok(imageLayers) =>
          match Resolve(world, c.layers)
          case Err(e) => Err(e)
          case Ok(layers) => Complete(world.evaluateEnvironment, c', imageLayers + layers)
  }

  /** The same success with the same specification, or both failures; which failure is reported may differ. */
  predicate Agree(a: Outcome, b: Outcome) {
    if a.Ok? then a == b else b.Err?
  }

  // ----- Resolving layer by layer

  lemma {:induction false} ResolveAll(world: World, layers: seq<LayerSpec>, artifacts: seq<Artifact>)
    requires |artifacts| == |layers|
    requires forall i :: 0 <= i < |layers| ==> world.layerResult(layers[i]) == Ok(artifacts[i])
    ensures Resolve(world, layers) == Ok(artifacts)
  {
    if layers == [] {
    } else {
      var n := |layers| - 1;
      ResolveAll(world, layers[..n], artifacts[..n]);
      assert artifacts == artifacts[..n] + [artifacts[n]];
    }
  }

  lemma {:induction false} ResolveFails(world: World, layers: seq<LayerSpec>, i: nat)
    requires i < |layers| && world.layerResult(layers[i]).Err?
    ensures Resolve(world, layers).Err?
  {
    var n := |layers| - 1;
    if i == n {
    } else {
      ResolveFails(world, layers[..n], i);
    }
  }

  // ----- The errors that a request can fail with

  ghost predicate LayerFailsWith(world: World, layers: seq<LayerSpec>, e: Error) {
    exists l :: l in layers && world.layerResult(l) == Err(e)
  }

  /**
   What can go wrong with a request, whatever is found out first: it does not collapse, one of its own
   layers or its image or a layer of its image cannot be had, or completing it fails.
   */
  ghost predicate CanFailWith(world: World, job: ClientJobSpec, containers: Containers, e: Error) {
    match Collapse(job, containers)
    case Err(collapsing) => e == Collapsing(collapsing)
    case Ok(c) =>
      CollapsedIsReady(job, containers);
      || LayerFailsWith(world, c.layers, e)
      || match WithImage(world, c)
         case Err(noImage) => e == noImage
         case Ok(c') =>
           || LayerFailsWith(world, c'.imageLayers, e)
           || CannotComplete(world, c', e)
  }

  ghost predicate CannotComplete(world: World, c: CollapsedJobSpec, e: Error)
    requires c.image.None?
  {
    && Resolve(world, c.imageLayers).Ok? && Resolve(world, c.layers).Ok?
    && Complete(world.evaluateEnvironment, c,
                Resolve(world, c.imageLayers).value + Resolve(world, c.layers).value) == Err(e)
  }

  /** An answer to a request: the one specification it can have, or one of its own errors. */
  ghost predicate Answered(world: World, job: ClientJobSpec, containers: Containers, outcome: Outcome) {
    match outcome
    case Ok(_) => outcome == Sequential(world, job, containers)
    case Err(e) => CanFailWith(world, job, containers, e)
  }

  lemma {:induction false} ResolveError(world: World, layers: seq<LayerSpec>)
    requires Resolve(world, layers).Err?
    ensures LayerFailsWith(world, layers, Resolve(world, layers).error)
  {
    var n := |layers| - 1;
    if Resolve(world, layers[..n]).Err? {
      ResolveError(world, layers[..n]);
      var l :| l in layers[..n] && world.layerResult(l) == Err(Resolve(world, layers[..n]).error);
      assert l in layers;
    } else {
      assert layers[n] in layers;
    }
  }

  /** A request can fail with some error exactly if the sequential preparation fails, whose error is one of them. */
  lemma FailsExactly(world: World, job: ClientJobSpec, containers: Containers)
    ensures Answered(world, job, containers, Sequential(world, job, containers))
    ensures Sequential(world, job, containers).Err? <==> exists e :: CanFailWith(world, job, containers, e)
  {
    var r := Sequential(world, job, containers);
    if r.Err? {
      SequentialError(world, job, containers);
    }
    forall e | CanFailWith(world, job, containers, e) ensures r.Err? {
      ErrorMeansFailure(world, job, containers, e);
    }
  }

  lemma SequentialError(world: World, job: ClientJobSpec, containers: Containers)
    requires Sequential(world, job, containers).Err?
    ensures CanFailWith(world, job, containers, Sequential(world, job, containers).error)
  {
    if Collapse(job, containers).Ok? {
      var c := Collapse(job, containers).value;
      CollapsedIsReady(job, containers);
      var withImage := WithImage(world, c);
      if withImage.Ok? && Resolve(world, withImage.value.imageLayers).Err? {
        ResolveError(world, withImage.value.imageLayers);
      } else if withImage.Ok? && Resolve(world, c.layers).Err? {
        ResolveError(world, c.layers);
      }
    }
  }

  lemma ErrorMeansFailure(world: World, job: ClientJobSpec, containers: Containers, e: Error)
    requires CanFailWith(world, job, containers, e)
    ensures Sequential(world, job, containers).Err?
  {
    if Collapse(job, containers).Ok? {
      var c := Collapse(job, containers).value;
      CollapsedIsReady(job, containers);
      if LayerFailsWith(world, c.layers, e) {
        LayerFailureResolves(world, c.layers, e);
      } else if WithImage(world, c).Ok? && LayerFailsWith(world, WithImage(world, c).value.imageLayers, e) {
        LayerFailureResolves(world, WithImage(world, c).value.imageLayers, e);
      }
    }
  }

  lemma {:induction false} LayerFailureResolves(world: World, layers: seq<LayerSpec>, e: Error)
    requires LayerFailsWith(world, layers, e)
    ensures Resolve(world, layers).Err?
  {
    var i :| 0 <= i < |layers| && world.layerResult(layers[i]) == Err(e);
    ResolveFails(world, layers, i);
  }
}
