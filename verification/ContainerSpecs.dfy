/** Container, image and job specifications as clients give them (`spec.rs`, `maelstrom-base`). */
module ContainerSpecs {
  import opened Wrappers

  type Path = string

  datatype PrefixOptions = PrefixOptions(stripPrefix: Option<Path>, prependPrefix: Option<Path>,
                                         canonicalize: bool, followSymlinks: bool)

  datatype LayerSpec =
    | Tar(path: Path)
    | Glob(glob: string, prefixOptions: PrefixOptions)
    | Paths(paths: seq<Path>, prefixOptions: PrefixOptions)
    | Stubs(stubs: seq<string>)
    | Symlinks(symlinks: seq<(Path, Path)>)
    | SharedLibraryDependencies(binaryPaths: seq<Path>, prefixOptions: PrefixOptions)

  datatype JobMount =
    | Bind(mountPoint: Path, localPath: Path, readOnly: bool)
    | Devices(devices: set<string>)
    | Devpts(mountPoint: Path)
    | Mqueue(mountPoint: Path)
    | Proc(mountPoint: Path)
    | Sys(mountPoint: Path)
    | Tmp(mountPoint: Path)

  datatype JobNetwork = Disabled | Loopback | Local

  datatype EnvironmentSpec = EnvironmentSpec(vars: map<string, string>, extend: bool)

  datatype ImageUse = ImageLayers | ImageEnvironment | ImageWorkingDirectory

  datatype ContainerUse =
    | UseLayers
    | UseEnableWritableFileSystem
    | UseEnvironment
    | UseWorkingDirectory
    | UseMounts
    | UseNetwork
    | UseUser
    | UseGroup

  const ALL_IMAGE_USES: set<ImageUse> := {ImageLayers, ImageEnvironment, ImageWorkingDirectory}

  const ALL_CONTAINER_USES: set<ContainerUse> :=
    {UseLayers, UseEnableWritableFileSystem, UseEnvironment, UseWorkingDirectory, UseMounts, UseNetwork, UseUser,
     UseGroup}

  datatype ImageRef = ImageRef(name: string, uses: set<ImageUse>)

  datatype ContainerRef = ContainerRef(name: string, uses: set<ContainerUse>)

  datatype ContainerParent = Image(image: ImageRef) | Container(container: ContainerRef)

  datatype ContainerSpec = ContainerSpec(
    parent: Option<ContainerParent>,
    layers: seq<LayerSpec>,
    environment: seq<EnvironmentSpec>,
    workingDirectory: Option<Path>,
    enableWritableFileSystem: Option<bool>,
    mounts: seq<JobMount>,
    network: Option<JobNetwork>,
    user: Option<nat>,
    group: Option<nat>)

  datatype CaptureFileSystemChanges = CaptureFileSystemChanges(upper: Path, work: Path)

  /** The fields of a job that containers have no say in. */
  datatype JobOptions = JobOptions(
    program: Path,
    arguments: seq<string>,
    timeout: Option<nat>,
    estimatedDuration: Option<nat>,
    allocateTty: Option<string>,
    priority: int,
    captureFileSystemChanges: Option<CaptureFileSystemChanges>)

  datatype ClientJobSpec = ClientJobSpec(container: ContainerSpec, options: JobOptions)

  /** What an image may supply of a container's fields. */
  function Project(uses: set<ContainerUse>): set<ImageUse> {
    set u: ImageUse | u in ALL_IMAGE_USES && ContainerUseOf(u) in uses
  }

  function ContainerUseOf(u: ImageUse): ContainerUse {
    match u
    case ImageLayers => UseLayers
    case ImageEnvironment => UseEnvironment
    case ImageWorkingDirectory => UseWorkingDirectory
  }

  predicate IsList(f: ContainerUse) {
    f in {UseLayers, UseEnvironment, UseMounts}
  }

  /** Whether the scalar field `f` is given. */
  predicate Sets(s: ContainerSpec, f: ContainerUse) {
    match f
    case UseEnableWritableFileSystem => s.enableWritableFileSystem.Some?
    case UseWorkingDirectory => s.workingDirectory.Some?
    case UseNetwork => s.network.Some?
    case UseUser => s.user.Some?
    case UseGroup => s.group.Some?
    case _ => false
  }

  // ----- Images

  /** A layer path of an image, which need not be valid UTF-8. */
  datatype LayerPath = Utf8(path: Path) | NotUtf8

  datatype ConvertedImage = ConvertedImage(
    name: string,
    layers: seq<LayerPath>,
    environment: Option<seq<string>>,
    workingDirectory: Option<Path>)

  datatype SpecError = NonUtf8Layer | InvalidVariable

  function TarLayers(layers: seq<LayerPath>): Result<seq<LayerSpec>, SpecError> {
    if layers == [] then Ok([])
    else if layers[0].NotUtf8? then Err(NonUtf8Layer)
    else
      match TarLayers(layers[1..])
      case Err(e) => Err(e)
      case Ok(rest) => Ok([Tar(layers[0].path)] + rest)
  }

  /** Everything before and after the first `=`. */
  function SplitOnce(s: string): Option<(string, string)> {
    if s == "" then None
    else if s[0] == '=' then Some(("", s[1..]))
    else
      var (key, value) :- SplitOnce(s[1..]);
      Some(([s[0]] + key, value))
  }

  /** Later variables override earlier ones. */
  function Variables(vars: seq<string>): Result<map<string, string>, SpecError> {
    if vars == [] then Ok(map[])
    else
      match Variables(vars[..|vars| - 1])
      case Err(e) => Err(e)
      case Ok(m) =>
        match SplitOnce(vars[|vars| - 1])
        case None => Err(InvalidVariable)
        case Some((key, value)) => Ok(m[key := value])
  }

  function ImageVariables(image: ConvertedImage): Result<map<string, string>, SpecError> {
    if image.environment.None? then Ok(map[]) else Variables(image.environment.value)
  }

  /** An image's layers are taken in their order, each as a tar file; a path that is not UTF-8 fails them all. */
  lemma {:induction false} TarLayersAre(layers: seq<LayerPath>)
    ensures TarLayers(layers).Ok? <==> forall i :: 0 <= i < |layers| ==> layers[i].Utf8?
    ensures TarLayers(layers).Err? ==> TarLayers(layers).error == NonUtf8Layer
    ensures TarLayers(layers).Ok? ==> |TarLayers(layers).value| == |layers|
    ensures TarLayers(layers).Ok? ==>
              forall i :: 0 <= i < |layers| ==> layers[i].Utf8? && TarLayers(layers).value[i] == Tar(layers[i].path)
  {
    if layers == [] {
    } else {
      TarLayersAre(layers[1..]);
      assert forall i :: 0 < i < |layers| ==> layers[i] == layers[1..][i - 1];
    }
  }

  /** The variable is `key`, an equals sign and `value`; the key goes up to the first equals sign. */
  predicate Assigns(variable: string, key: string, value: string) {
    '=' !in key && variable == key + "=" + value
  }

  lemma {:induction false} SplitOnceAssigns(s: string)
    ensures SplitOnce(s).Some? ==> Assigns(s, SplitOnce(s).value.0, SplitOnce(s).value.1)
    ensures SplitOnce(s).Some? <==> '=' in s
  {
    if s == "" || s[0] == '=' {
    } else {
      SplitOnceAssigns(s[1..]);
      assert s == [s[0]] + s[1..];
    }
  }

  lemma AssignsOnce(s: string, key: string, value: string, key': string, value': string)
    requires Assigns(s, key, value) && Assigns(s, key', value')
    ensures key == key' && value == value'
  {
    assert s[|key|] == '=' && s[|key'|] == '=';
    assert forall i :: 0 <= i < |key| ==> s[i] == key[i] && s[i] != '=';
    assert forall i :: 0 <= i < |key'| ==> s[i] == key'[i] && s[i] != '=';
    assert key == s[..|key|] && key' == s[..|key'|];
    assert value == s[|key| + 1..] && value' == s[|key'| + 1..];
  }

  predicate Mentions(variable: string, key: string) {
    '=' !in key && key + "=" <= variable
  }

  /** The last variable with this key is the one at `i`, and it assigns `value`. */
  predicate LastAssigns(vars: seq<string>, key: string, value: string, i: nat) {
    i < |vars| && Assigns(vars[i], key, value) && forall j :: i < j < |vars| ==> !Mentions(vars[j], key)
  }

  /** The variables of an image: each key is bound by the last variable that has it; one without `=` fails them all. */
  ghost predicate AreBindings(vars: seq<string>, m: map<string, string>) {
    && (forall key :: key in m <==> exists i :: 0 <= i < |vars| && Mentions(vars[i], key))
    && (forall key :: key in m ==> exists i: nat :: LastAssigns(vars, key, m[key], i))
  }

  lemma {:induction false} VariablesAre(vars: seq<string>)
    ensures Variables(vars).Ok? <==> forall i :: 0 <= i < |vars| ==> '=' in vars[i]
    ensures Variables(vars).Err? ==> Variables(vars).error == InvalidVariable
    ensures Variables(vars).Ok? ==> AreBindings(vars, Variables(vars).value)
  {
    if vars == [] {
    } else {
      var front, last := vars[..|vars| - 1], vars[|vars| - 1];
      VariablesAre(front);
      SplitOnceAssigns(last);
      if Variables(vars).Ok? {
        var (key, value) := SplitOnce(last).value;
        OneMoreBinding(front, Variables(front).value, last, key, value);
        assert vars == front + [last];
      }
    }
  }

  lemma MentionsItsKey(variable: string, key: string, value: string)
    requires Assigns(variable, key, value)
    ensures forall k :: Mentions(variable, k) <==> k == key
  {
    forall k ensures Mentions(variable, k) <==> k == key {
      if Mentions(variable, k) {
        assert variable == k + "=" + variable[|k| + 1..];
        AssignsOnce(variable, key, value, k, variable[|k| + 1..]);
      }
    }
  }

  lemma OneMoreBinding(vars: seq<string>, m: map<string, string>, last: string, key: string, value: string)
    requires AreBindings(vars, m) && Assigns(last, key, value)
    ensures AreBindings(vars + [last], m[key := value])
  {
    var after, m' := vars + [last], m[key := value];
    var n := |vars|;
    MentionsItsKey(last, key, value);
    hide Mentions, Assigns;
    assert after[n] == last;
    forall k ensures k in m' <==> exists i :: 0 <= i < |after| && Mentions(after[i], k) {
      if k in m {
        var i :| 0 <= i < n && Mentions(vars[i], k);
        assert after[i] == vars[i];
      }
      if i :| 0 <= i < |after| && Mentions(after[i], k) {
        assert i < n ==> after[i] == vars[i];
      }
    }
    forall k | k in m' ensures exists i: nat :: LastAssigns(after, k, m'[k], i) {
      if k == key {
        assert LastAssigns(after, k, value, n);
      } else {
        var i: nat :| LastAssigns(vars, k, m[k], i);
        assert LastAssigns(after, k, m[k], i);
      }
    }
  }
}
