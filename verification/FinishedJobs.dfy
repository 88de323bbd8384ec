/**
 What becomes of each field of a job: from the container, its ancestors and its image to the
 specification that is handed to the broker, and when there is one.
 */
module FinishedJobs {
  import opened Wrappers
  import opened ContainerSpecs
  import opened CollapsedJobSpecs
  import opened JobPreparation

  /** The image that a job takes some field from, as fetched. */
  function ImageOf(world: World, job: ClientJobSpec, containers: Containers): Option<Result<ConvertedImage, Error>> {
    match ImageField(containers, job.container)
    case None => None
    case Some(image) => Some(world.imageResult(image.name))
  }

  /** The layers below the job's own: its image's, if it takes them. */
  function LayersBelow(world: World, job: ClientJobSpec, containers: Containers): seq<LayerPath> {
    var image := ImageOf(world, job, containers);
    if TakesFromImage(containers, job.container, ImageLayers) && image.Some? && image.value.Ok?
    then image.value.value.layers
    else []
  }

  function OwnLayers(job: ClientJobSpec, containers: Containers): seq<LayerSpec> {
    ListField(containers, job.container, UseLayers, LayersOf)
  }

  /** Taking a field from the image is the image being fetched for it. */
  lemma TakesWhatIsFetched(containers: Containers, s: ContainerSpec, u: ImageUse)
    ensures TakesFromImage(containers, s, u) <==>
            ImageField(containers, s).Some? && u in ImageField(containers, s).value.uses
  {
    var uses := set v: ImageUse | v in ALL_IMAGE_USES && TakesFromImage(containers, s, v);
    assert u in ALL_IMAGE_USES by {
      match u { case ImageLayers => case ImageEnvironment => case ImageWorkingDirectory => }
    }
    assert u in uses <==> TakesFromImage(containers, s, u);
    match u { case ImageLayers => case ImageEnvironment => case ImageWorkingDirectory => }
  }

  /** The steps of a preparation that succeeds. */
  lemma Steps(world: World, job: ClientJobSpec, containers: Containers)
    returns (c: CollapsedJobSpec, c': CollapsedJobSpec, layers: seq<Artifact>, environment: seq<string>)
    requires Sequential(world, job, containers).Ok?
    ensures Collapse(job, containers) == Ok(c) && (c.image.Some? ==> ReadyForImage(c)) && c.imageLayers == []
    ensures WithImage(world, c) == Ok(c')
    ensures Resolve(world, c'.imageLayers).Ok? && Resolve(world, c.layers).Ok?
    ensures layers == Resolve(world, c'.imageLayers).value + Resolve(world, c.layers).value
    ensures |layers| == |c'.imageLayers| + |c'.layers|
    ensures IntoJobSpec(c', layers, environment) == Sequential(world, job, containers)
  {
    hide Collapse, Integrate;
    CollapsedIsReady(job, containers);
    c := Collapse(job, containers).value;
    c' := WithImage(world, c).value;
    layers := Resolve(world, c'.imageLayers).value + Resolve(world, c.layers).value;
    environment := world.evaluateEnvironment(c'.initialEnvironment, c'.environment).value;
  }

  /** Every field that is not taken from an image is the one field's own inheritance, or its default. */
  lemma FinishedFields(world: World, job: ClientJobSpec, containers: Containers)
    requires Sequential(world, job, containers).Ok?
    ensures
      var s, spec := job.container, Sequential(world, job, containers).value;
      && spec.options == job.options
      && spec.mounts == ListField(containers, s, UseMounts, MountsOf)
      && spec.network == (match ScalarField(containers, s, UseNetwork, NetworkOf)
                          case None => Disabled
                          case Some(network) => network)
      && spec.user == (match ScalarField(containers, s, UseUser, UserOf) case None => 0 case Some(user) => user)
      && spec.group == (match ScalarField(containers, s, UseGroup, GroupOf) case None => 0 case Some(group) => group)
    ensures
      var s, spec := job.container, Sequential(world, job, containers).value;
      spec.rootOverlay ==
      match job.options.captureFileSystemChanges
      case Some(capture) => LocalOverlay(capture)
      case None =>
        if ScalarField(containers, s, UseEnableWritableFileSystem, WritableOf) == Some(true) then TmpOverlay
        else NoOverlay
  {
    hide Sequential, ListField, ScalarField, ImageField, FateOf, Resolve;
    var c, c', layers, environment := Steps(world, job, containers);
    OnlyImageFields(world, c);
  }

  lemma OnlyImageFields(world: World, c: CollapsedJobSpec)
    requires (c.image.Some? ==> ReadyForImage(c)) && WithImage(world, c).Ok?
    ensures
      var c' := WithImage(world, c).value;
      && c'.options == c.options && c'.mounts == c.mounts && c'.network == c.network && c'.user == c.user
      && c'.group == c.group && c'.enableWritableFileSystem == c.enableWritableFileSystem && c'.layers == c.layers
      && c'.environment == c.environment
  {
  }

  /** The working directory is the image's where it is selected, and otherwise the containers'. */
  lemma FinishedDirectory(world: World, job: ClientJobSpec, containers: Containers)
    requires Sequential(world, job, containers).Ok?
    ensures
      var s, image := job.container, ImageOf(world, job, containers);
      var fromImage := TakesFromImage(containers, s, ImageWorkingDirectory);
      && (fromImage ==> image.Some? && image.value.Ok?)
      && Sequential(world, job, containers).value.workingDirectory ==
         match (if fromImage then image.value.value.workingDirectory
                else ScalarField(containers, s, UseWorkingDirectory, WorkingDirectoryOf))
         case None => "/"
         case Some(path) => path
  {
    hide Sequential, ListField, ScalarField, ImageField, FateOf, Resolve, TakesFromImage;
    var c, c', layers, environment := Steps(world, job, containers);
    TakesWhatIsFetched(containers, job.container, ImageWorkingDirectory);
  }

  /** The artifacts: those of the image's layers, one for each and in order, and then those of the job's own. */
  lemma FinishedLayers(world: World, job: ClientJobSpec, containers: Containers)
    requires Sequential(world, job, containers).Ok?
    ensures
      var below, own := LayersBelow(world, job, containers), OwnLayers(job, containers);
      var layers := Sequential(world, job, containers).value.layers;
      && |layers| == |below| + |own|
      && (forall i :: 0 <= i < |below| ==>
            below[i].Utf8? && world.layerResult(Tar(below[i].path)) == Ok(layers[i]))
      && (forall i :: 0 <= i < |own| ==> world.layerResult(own[i]) == Ok(layers[|below| + i]))
  {
    hide Sequential, ListField, ScalarField, ImageField, FateOf, Resolve, TakesFromImage, IntoJobSpec;
    var c, c', layers, environment := Steps(world, job, containers);
    IntoLayers(c', layers, environment);
    TakesWhatIsFetched(containers, job.container, ImageLayers);
    if c.image.Some? {
      IntegrateMeans(c, world.imageResult(c.image.value.name).value);
    }
    var below := LayersBelow(world, job, containers);
    assert AreTarLayers(below, c'.imageLayers);
    Resolved(world, c'.imageLayers);
    Resolved(world, c.layers);
  }

  lemma IntoLayers(c: CollapsedJobSpec, layers: seq<Artifact>, environment: seq<string>)
    requires c.image.None? && |layers| == |c.imageLayers| + |c.layers| && IntoJobSpec(c, layers, environment).Ok?
    ensures IntoJobSpec(c, layers, environment).value.layers == layers
  {
  }

  lemma {:induction false} Resolved(world: World, layers: seq<LayerSpec>)
    ensures Resolve(world, layers).Ok? ==>
              forall i :: 0 <= i < |layers| ==> world.layerResult(layers[i]) == Ok(Resolve(world, layers).value[i])
    ensures Resolve(world, layers).Ok? <==> forall i :: 0 <= i < |layers| ==> world.layerResult(layers[i]).Ok?
  {
    if layers == [] {
    } else {
      var front := layers[..|layers| - 1];
      Resolved(world, front);
      assert forall i :: 0 <= i < |front| ==> front[i] == layers[i];
    }
  }

  // ----- When there is a finished job

  /** The variables that the environment starts from. */
  function InitialVariables(world: World, job: ClientJobSpec, containers: Containers): map<string, string> {
    var image := ImageOf(world, job, containers);
    if TakesFromImage(containers, job.container, ImageEnvironment) && image.Some? && image.value.Ok?
       && ImageVariables(image.value.value).Ok?
    then ImageVariables(image.value.value).value
    else map[]
  }

  /** The image that the job needs, if any, is there and fit for what is taken from it. */
  ghost predicate ImageUsable(world: World, job: ClientJobSpec, containers: Containers) {
    var image := ImageOf(world, job, containers);
    image.Some? ==>
      && image.value.Ok?
      && !(TakesFromImage(containers, job.container, ImageLayers) && HasNonUtf8Layer(image.value.value))
      && !(TakesFromImage(containers, job.container, ImageEnvironment) && HasBadVariable(image.value.value))
  }

  ghost predicate LayersBuildable(world: World, job: ClientJobSpec, containers: Containers) {
    && (forall l :: l in LayersBelow(world, job, containers) ==> l.Utf8? && world.layerResult(Tar(l.path)).Ok?)
    && (forall l :: l in OwnLayers(job, containers) ==> world.layerResult(l).Ok?)
  }

  /** Everything the job needs can be had: its chain, its image, all of its layers and its environment. */
  ghost predicate Obtainable(world: World, job: ClientJobSpec, containers: Containers) {
    && Collapse(job, containers).Ok?
    && ImageUsable(world, job, containers)
    && LayersBuildable(world, job, containers)
    && world.evaluateEnvironment(InitialVariables(world, job, containers),
                                 ListField(containers, job.container, UseEnvironment, EnvironmentOf)).Ok?
  }

  ghost predicate MountsSysOnLocalNetwork(job: ClientJobSpec, containers: Containers) {
    && ScalarField(containers, job.container, UseNetwork, NetworkOf) == Some(Local)
    && exists m :: m in ListField(containers, job.container, UseMounts, MountsOf) && m.Sys?
  }

  /** There is a finished job exactly if all it needs can be had, it has layers, and it may mount what it mounts. */
  lemma FinishesExactly(world: World, job: ClientJobSpec, containers: Containers)
    ensures
      var outcome := Sequential(world, job, containers);
      var bare := LayersBelow(world, job, containers) == [] && OwnLayers(job, containers) == [];
      var mounts := MountsSysOnLocalNetwork(job, containers);
      && (outcome.Ok? <==> Obtainable(world, job, containers) && !mounts && !bare)
      && (Obtainable(world, job, containers) && mounts ==> outcome == Err(Checking(SysMountWithLocalNetwork)))
      && (Obtainable(world, job, containers) && !mounts && bare ==> outcome == Err(Checking(NoLayers)))
  {
    hide ListField, ScalarField, ImageField, FateOf, Resolve, TakesFromImage, ImageVariables, ReadyForImage;
    hide HasNonUtf8Layer, HasBadVariable, ImageUsable, LayersBuildable, LayersBelow, Integrate, Check;
    if Collapse(job, containers).Ok? {
      CollapsedIsReady(job, containers);
      var c := Collapse(job, containers).value;
      ImageUsableExactly(world, job, containers, c);
      if WithImage(world, c).Ok? {
        var c' := WithImage(world, c).value;
        OnlyImageFields(world, c);
        BuildableExactly(world, job, containers, c, c');
        ChecksMean(c', LayersBelow(world, job, containers), OwnLayers(job, containers));
      }
    }
  }

  lemma ImageUsableExactly(world: World, job: ClientJobSpec, containers: Containers, c: CollapsedJobSpec)
    requires Collapse(job, containers) == Ok(c) && (c.image.Some? ==> ReadyForImage(c))
    requires c.imageLayers == [] && c.initialEnvironment == map[]
    ensures WithImage(world, c).Ok? <==> ImageUsable(world, job, containers)
    ensures WithImage(world, c).Ok? ==>
              && AreTarLayers(LayersBelow(world, job, containers), WithImage(world, c).value.imageLayers)
              && WithImage(world, c).value.initialEnvironment == InitialVariables(world, job, containers)
  {
    hide ListField, ScalarField, ImageField, FateOf, TakesFromImage;
    TakesWhatIsFetched(containers, job.container, ImageLayers);
    TakesWhatIsFetched(containers, job.container, ImageEnvironment);
    hide HasNonUtf8Layer, HasBadVariable, Integrate;
    if c.image.Some? && world.imageResult(c.image.value.name).Ok? {
      var image := world.imageResult(c.image.value.name).value;
      IntegrateMeans(c, image);
      IntegrateTakes(c, image);
      var r := Integrate(c, image);
      if r.Err? {
        match r.error { case NonUtf8Layer => case InvalidVariable => }
      }
    }
  }

  lemma IntegrateTakes(c: CollapsedJobSpec, image: ConvertedImage)
    requires ReadyForImage(c)
    ensures Integrate(c, image).Ok? && ImageEnvironment in c.image.value.uses ==> ImageVariables(image).Ok?
    ensures Integrate(c, image).Ok? ==>
              Integrate(c, image).value.initialEnvironment
              == if ImageEnvironment in c.image.value.uses then ImageVariables(image).value else map[]
  {
  }

  lemma {:induction false} BuildableExactly(world: World, job: ClientJobSpec, containers: Containers,
                                            c: CollapsedJobSpec, c': CollapsedJobSpec)
    requires c.layers == OwnLayers(job, containers)
    requires AreTarLayers(LayersBelow(world, job, containers), c'.imageLayers)
    ensures Resolve(world, c'.imageLayers).Ok? && Resolve(world, c.layers).Ok?
       <==> LayersBuildable(world, job, containers)
  {
    hide LayersBelow, OwnLayers;
    Resolved(world, c'.imageLayers);
    Resolved(world, c.layers);
    var below := LayersBelow(world, job, containers);
    if LayersBuildable(world, job, containers) {
      forall i | 0 <= i < |c'.imageLayers| ensures world.layerResult(c'.imageLayers[i]).Ok? {
        assert below[i] in below;
      }
    }
  }

  lemma ChecksMean(c: CollapsedJobSpec, below: seq<LayerPath>, own: seq<LayerSpec>)
    requires |below| == |c.imageLayers| && own == c.layers
    ensures Check(c) == if c.network == Some(Local) && (exists m :: m in c.mounts && m.Sys?)
                        then Err(SysMountWithLocalNetwork)
                        else if below == [] && own == [] then Err(NoLayers) else Ok(())
  {
  }
}
