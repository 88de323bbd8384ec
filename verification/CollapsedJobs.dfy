/**
 The collapsed job as the object that is updated in place (`collapsed_job_spec.rs`): taking in
 an image, use by use, and giving up its environment.
 */
module CollapsedJobs {
  import opened Wrappers
  import opened ContainerSpecs
  import opened CollapsedJobSpecs
  import opened JobPreparation

  /** The order in which a set of image uses is gone through. */
  const USE_ORDER: seq<ImageUse> := [ImageLayers, ImageEnvironment, ImageWorkingDirectory]

  class CollapsedJob {
    var spec: CollapsedJobSpec

    constructor (spec: CollapsedJobSpec)
      ensures this.spec == spec
    {
      this.spec := spec;
    }

    /** One use: the field it fills is empty beforehand. */
    method TakeUse(imageUse: ImageUse, image: ConvertedImage) returns (r: Result<(), SpecError>)
      requires imageUse.ImageLayers? ==> spec.imageLayers == []
      requires imageUse.ImageEnvironment? ==> spec.initialEnvironment == map[]
      requires imageUse.ImageWorkingDirectory? ==> spec.workingDirectory.None?
      modifies this
      ensures
        match imageUse
        case ImageLayers =>
          (match TarLayers(image.layers)
           case Ok(layers) => r.Ok? && spec == old(spec).(imageLayers := layers)
           case Err(e) => r == Err(e) && spec == old(spec))
        case ImageEnvironment =>
          (match ImageVariables(image)
           case Ok(variables) => r.Ok? && spec == old(spec).(initialEnvironment := variables)
           case Err(e) => r == Err(e) && spec == old(spec))
        case ImageWorkingDirectory => r.Ok? && spec == old(spec).(workingDirectory := image.workingDirectory)
    {
      match imageUse {
        case ImageLayers =>
          assert spec.imageLayers == [];
          var layers :- TarLayers(image.layers);
          spec := spec.(imageLayers := layers);
        case ImageEnvironment =>
          assert spec.initialEnvironment == map[];
          var variables :- ImageVariables(image);
          spec := spec.(initialEnvironment := variables);
        case ImageWorkingDirectory =>
          assert spec.workingDirectory.None?;
          spec := spec.(workingDirectory := image.workingDirectory);
      }
      r := Ok(());
    }

    /** `integrate_image`: the uses one after the other; the image is gone afterwards, whatever happens. */
    method IntegrateImage(image: ConvertedImage) returns (r: Result<(), SpecError>)
      requires ReadyForImage(spec)
      modifies this
      ensures spec.image.None?
      ensures
        match Integrate(old(spec), image)
        case Ok(c) => r.Ok? && spec == c
        case Err(e) => r == Err(e)
      ensures r == Err(NonUtf8Layer) <==> ImageLayers in old(spec).image.value.uses && HasNonUtf8Layer(image)
      ensures r == Err(InvalidVariable) <==>
              r != Err(NonUtf8Layer) && ImageEnvironment in old(spec).image.value.uses && HasBadVariable(image)
      ensures r.Ok? ==> ImageTaken(old(spec), image, spec)
    {
      IntegrateMeans(spec, image);
      hide ImageTaken, HasNonUtf8Layer, HasBadVariable;
      ghost var c := spec;
      var uses := spec.image.value.uses;
      spec := spec.(image := None);
      for i := 0 to |USE_ORDER|
        invariant spec == TakenUpTo(c, image, i) && c == old(spec)
        invariant i > 0 && ImageLayers in uses ==> TarLayers(image.layers).Ok?
        invariant i > 1 && ImageEnvironment in uses ==> ImageVariables(image).Ok?
      {
        if USE_ORDER[i] in uses {
          var taken := TakeUse(USE_ORDER[i], image);
          if taken.Err? {
            return taken;
          }
        }
      }
      r := Ok(());
    }

    /** `take_environment`: both parts of the environment, leaving none behind. */
    method TakeEnvironment() returns (initial: map<string, string>, specs: seq<EnvironmentSpec>)
      modifies this
      ensures initial == old(spec).initialEnvironment && specs == old(spec).environment
      ensures spec == old(spec).(initialEnvironment := map[], environment := [])
    {
      initial, specs := spec.initialEnvironment, spec.environment;
      spec := spec.(initialEnvironment := map[], environment := []);
    }
  }

  /** The specification after the first `n` uses have been taken. */
  ghost function TakenUpTo(c: CollapsedJobSpec, image: ConvertedImage, n: nat): CollapsedJobSpec
    requires ReadyForImage(c) && n <= 3
  {
    var uses := c.image.value.uses;
    var layers := TarLayers(image.layers);
    var variables := ImageVariables(image);
    c.(image := None,
       imageLayers := if n > 0 && ImageLayers in uses && layers.Ok? then layers.value else [],
       initialEnvironment := if n > 1 && ImageEnvironment in uses && variables.Ok? then variables.value else map[],
       workingDirectory :=
         if n > 2 && ImageWorkingDirectory in uses then image.workingDirectory else c.workingDirectory)
  }

  /** What a finished specification has of each field of the collapsed one, defaults filled in. */
  predicate Finishes(c: CollapsedJobSpec, layers: seq<Artifact>, spec: JobSpec) {
    && spec.options == c.options && spec.layers == layers && spec.mounts == c.mounts
    && spec.user == (match c.user case None => 0 case Some(user) => user)
    && spec.group == (match c.group case None => 0 case Some(group) => group)
    && spec.network == (match c.network case None => Disabled case Some(network) => network)
    && spec.workingDirectory == (match c.workingDirectory case None => "/" case Some(path) => path)
    && spec.rootOverlay == (match c.options.captureFileSystemChanges
                            case Some(capture) => LocalOverlay(capture)
                            case None => if c.enableWritableFileSystem == Some(true) then TmpOverlay else NoOverlay)
  }

  /** `into_handle_and_spec`: taking the environment out first makes no difference to the finished specification. */
  method IntoSpec(job: CollapsedJob, layers: seq<Artifact>, evaluate: EvaluateEnvironment) returns (r: Outcome)
    requires job.spec.image.None? && |layers| == |job.spec.imageLayers| + |job.spec.layers|
    modifies job
    ensures r == Complete(evaluate, old(job.spec), layers)
    ensures r.Ok? ==> Finishes(old(job.spec), layers, r.value)
  {
    var initial, specs := job.TakeEnvironment();
    var environment := evaluate(initial, specs);
    match environment {
      case Err(e) => return Err(e);
      case Ok(variables) => return IntoJobSpec(job.spec, layers, variables);
    }
  }
}
