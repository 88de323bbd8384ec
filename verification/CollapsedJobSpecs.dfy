/**
 Collapsing a job's chain of containers into one specification (`collapsed_job_spec.rs`).
 The meaning of each field is given field by field; the loop, which walks the chain once
 for all fields under a shrinking mask, is proved to compute exactly that.
 */
module CollapsedJobSpecs {
  import opened Wrappers
  import opened ContainerSpecs

  type Containers = map<string, ContainerSpec>

  datatype CollapsedJobSpec = CollapsedJobSpec(
    layers: seq<LayerSpec>,
    enableWritableFileSystem: Option<bool>,
    environment: seq<EnvironmentSpec>,
    workingDirectory: Option<Path>,
    mounts: seq<JobMount>,
    network: Option<JobNetwork>,
    user: Option<nat>,
    group: Option<nat>,
    image: Option<ImageRef>,
    initialEnvironment: map<string, string>,
    imageLayers: seq<LayerSpec>,
    options: JobOptions)

  datatype CollapseError = ParentNotFound(name: string) | ParentLoop(name: string)

  // ----- One field at a time

  /** The ancestor that a container takes field `f` from, if it is a container seen for the first time. */
  predicate Follows(containers: Containers, parent: Option<ContainerParent>, f: ContainerUse, seen: set<string>) {
    && parent.Some? && parent.value.Container?
    && f in parent.value.container.uses
    && parent.value.container.name in containers
    && parent.value.container.name !in seen
  }

  /** A list field: the furthest ancestor's elements first, as far as every reference selects the field. */
  function InheritedList<T>(containers: Containers, parent: Option<ContainerParent>, f: ContainerUse,
                            get: ContainerSpec -> seq<T>, seen: set<string>): seq<T>
    decreases containers.Keys - seen
  {
    if !Follows(containers, parent, f, seen) then []
    else
      var name := parent.value.container.name;
      InheritedList(containers, containers[name].parent, f, get, seen + {name}) + get(containers[name])
  }

  /** A scalar field: the nearest ancestor that sets it, as far as every reference selects the field. */
  function InheritedScalar<T>(containers: Containers, parent: Option<ContainerParent>, f: ContainerUse,
                              get: ContainerSpec -> Option<T>, seen: set<string>): Option<T>
    decreases containers.Keys - seen
  {
    if !Follows(containers, parent, f, seen) then None
    else
      var name := parent.value.container.name;
      if get(containers[name]).Some? then get(containers[name])
      else InheritedScalar(containers, containers[name].parent, f, get, seen + {name})
  }

  /** Whether the walk for field `f` alone ends at an image, and at which. */
  function InheritedImage(containers: Containers, parent: Option<ContainerParent>, f: ContainerUse,
                          seen: set<string>): Option<ImageRef>
    decreases containers.Keys - seen
  {
    if parent.Some? && parent.value.Image? then Some(parent.value.image)
    else if !Follows(containers, parent, f, seen) then None
    else
      var name := parent.value.container.name;
      if Sets(containers[name], f) then None
      else InheritedImage(containers, containers[name].parent, f, seen + {name})
  }

  datatype Fate = Done | Missing(name: string) | Loops(name: string)

  /** How the walk up the chain ends while the fields in `mask` are wanted. */
  function FateOf(containers: Containers, parent: Option<ContainerParent>, mask: set<ContainerUse>,
                  seen: set<string>): Fate
    decreases containers.Keys - seen
  {
    if parent.None? || parent.value.Image? then Done
    else
      var wanted := mask * parent.value.container.uses;
      var name := parent.value.container.name;
      if wanted == {} then Done
      else if name !in containers then Missing(name)
      else if name in seen then Loops(name)
      else
          FateOf(containers, containers[name].parent, StillWanted(containers[name], wanted), seen + {name})
  }

  /** The fields of `mask` that a container leaves open: lists, and scalars it does not set. */
  function StillWanted(s: ContainerSpec, mask: set<ContainerUse>): set<ContainerUse> {
    set f | f in mask && !Sets(s, f)
  }

  function LayersOf(s: ContainerSpec): seq<LayerSpec> { s.layers }
  function EnvironmentOf(s: ContainerSpec): seq<EnvironmentSpec> { s.environment }
  function MountsOf(s: ContainerSpec): seq<JobMount> { s.mounts }
  function WritableOf(s: ContainerSpec): Option<bool> { s.enableWritableFileSystem }
  function WorkingDirectoryOf(s: ContainerSpec): Option<Path> { s.workingDirectory }
  function NetworkOf(s: ContainerSpec): Option<JobNetwork> { s.network }
  function UserOf(s: ContainerSpec): Option<nat> { s.user }
  function GroupOf(s: ContainerSpec): Option<nat> { s.group }

  function ListField<T>(containers: Containers, s: ContainerSpec, f: ContainerUse,
                        get: ContainerSpec -> seq<T>): seq<T> {
    InheritedList(containers, s.parent, f, get, {}) + get(s)
  }

  function ScalarField<T>(containers: Containers, s: ContainerSpec, f: ContainerUse,
                          get: ContainerSpec -> Option<T>): Option<T> {
    if get(s).Some? then get(s) else InheritedScalar(containers, s.parent, f, get, {})
  }

  /** Whether the image at the end of the chain supplies `u`. */
  predicate TakesFromImage(containers: Containers, s: ContainerSpec, u: ImageUse) {
    var f := ContainerUseOf(u);
    !Sets(s, f) &&
    match InheritedImage(containers, s.parent, f, {})
    case None => false
    case Some(image) => u in image.uses
  }

  /** The image to fetch: the one that some field is still to come from, with just those uses. */
  function ImageField(containers: Containers, s: ContainerSpec): Option<ImageRef> {
    var uses := set u: ImageUse | u in ALL_IMAGE_USES && TakesFromImage(containers, s, u);
    if ImageLayers in uses then Some(ImageRef(InheritedImage(containers, s.parent, UseLayers, {}).value.name, uses))
    else if ImageEnvironment in uses then
      Some(ImageRef(InheritedImage(containers, s.parent, UseEnvironment, {}).value.name, uses))
    else if ImageWorkingDirectory in uses then
      Some(ImageRef(InheritedImage(containers, s.parent, UseWorkingDirectory, {}).value.name, uses))
    else None
  }

  /** What collapsing means. */
  function Collapse(job: ClientJobSpec, containers: Containers): Result<CollapsedJobSpec, CollapseError> {
    var s := job.container;
    match FateOf(containers, s.parent, StillWanted(s, ALL_CONTAINER_USES), {})
    case Missing(name) => Err(ParentNotFound(name))
    case Loops(name) => Err(ParentLoop(name))
    case Done =>
      Ok(CollapsedJobSpec(
           ListField(containers, s, UseLayers, LayersOf),
           ScalarField(containers, s, UseEnableWritableFileSystem, WritableOf),
           ListField(containers, s, UseEnvironment, EnvironmentOf),
           ScalarField(containers, s, UseWorkingDirectory, WorkingDirectoryOf),
           ListField(containers, s, UseMounts, MountsOf),
           ScalarField(containers, s, UseNetwork, NetworkOf),
           ScalarField(containers, s, UseUser, UserOf),
           ScalarField(containers, s, UseGroup, GroupOf),
           ImageField(containers, s),
           map[], [], job.options))
  }

  // ----- The walk for all fields at once

  /** Of a list field: what is still to be inherited followed by what has been gathered is the whole. */
  ghost predicate ListSoFar<T>(containers: Containers, whole: seq<T>, f: ContainerUse, get: ContainerSpec -> seq<T>,
                               gathered: seq<T>, next: Option<ContainerParent>, mask: set<ContainerUse>,
                               seen: set<string>) {
    whole == (if f in mask then InheritedList(containers, next, f, get, seen) else []) + gathered
  }

  /** Of a scalar field: open and still to be inherited, or settled. */
  ghost predicate ScalarSoFar<T>(containers: Containers, whole: Option<T>, f: ContainerUse,
                                 get: ContainerSpec -> Option<T>, current: Option<T>,
                                 next: Option<ContainerParent>, mask: set<ContainerUse>, seen: set<string>) {
    if f in mask then current.None? && whole == InheritedScalar(containers, next, f, get, seen) else whole == current
  }

  /** Of what the image may supply: still open, or settled not to come from an image. */
  ghost predicate ImageSoFar(containers: Containers, s: ContainerSpec, next: Option<ContainerParent>,
                             mask: set<ContainerUse>, seen: set<string>) {
    forall f :: (if Sets(s, f) then None else InheritedImage(containers, s.parent, f, {}))
             == (if f in mask then InheritedImage(containers, next, f, seen) else None)
  }

  /** The reference `next` is followed: its container is there, is new, and some field is still wanted from it. */
  predicate Steps(containers: Containers, next: Option<ContainerParent>, mask: set<ContainerUse>, seen: set<string>) {
    && next.Some? && next.value.Container?
    && mask * next.value.container.uses != {}
    && next.value.container.name in containers && next.value.container.name !in seen
  }

  lemma ListStep<T>(containers: Containers, whole: seq<T>, f: ContainerUse, get: ContainerSpec -> seq<T>,
                    gathered: seq<T>, next: Option<ContainerParent>, mask: set<ContainerUse>, seen: set<string>)
    requires IsList(f) && Steps(containers, next, mask, seen)
    requires ListSoFar(containers, whole, f, get, gathered, next, mask, seen)
    ensures
      var ref := next.value.container;
      var parent := containers[ref.name];
      var wanted := mask * ref.uses;
      ListSoFar(containers, whole, f, get, if f in wanted then get(parent) + gathered else gathered,
                parent.parent, StillWanted(parent, wanted), seen + {ref.name})
  {
    var ref := next.value.container;
    var parent := containers[ref.name];
    if f in mask * ref.uses {
      var rest := InheritedList(containers, parent.parent, f, get, seen + {ref.name});
      assert rest + get(parent) + gathered == rest + (get(parent) + gathered);
    }
  }

  lemma ScalarStep<T>(containers: Containers, whole: Option<T>, f: ContainerUse, get: ContainerSpec -> Option<T>,
                      current: Option<T>, next: Option<ContainerParent>, mask: set<ContainerUse>, seen: set<string>)
    requires Steps(containers, next, mask, seen)
    requires get(containers[next.value.container.name]).Some? <==> Sets(containers[next.value.container.name], f)
    requires ScalarSoFar(containers, whole, f, get, current, next, mask, seen)
    ensures
      var ref := next.value.container;
      var parent := containers[ref.name];
      var wanted := mask * ref.uses;
      ScalarSoFar(containers, whole, f, get, if f in wanted then get(parent) else current,
                  parent.parent, StillWanted(parent, wanted), seen + {ref.name})
  {
  }

  /** At the end of the walk what has been gathered is the whole. */
  lemma ListEnd<T>(containers: Containers, whole: seq<T>, f: ContainerUse, get: ContainerSpec -> seq<T>,
                   gathered: seq<T>, next: Option<ContainerParent>, mask: set<ContainerUse>, seen: set<string>)
    requires ListSoFar(containers, whole, f, get, gathered, next, mask, seen)
    requires next.None? || next.value.Image? || mask * next.value.container.uses == {}
    ensures gathered == whole
  {
    if next.Some? && next.value.Container? {
      assert f !in mask * next.value.container.uses;
    }
  }

  lemma ScalarEnd<T>(containers: Containers, whole: Option<T>, f: ContainerUse, get: ContainerSpec -> Option<T>,
                     current: Option<T>, next: Option<ContainerParent>, mask: set<ContainerUse>, seen: set<string>)
    requires ScalarSoFar(containers, whole, f, get, current, next, mask, seen)
    requires next.None? || next.value.Image? || mask * next.value.container.uses == {}
    ensures current == whole
  {
    if next.Some? && next.value.Container? {
      assert f !in mask * next.value.container.uses;
    }
  }

  lemma ImageStep(containers: Containers, s: ContainerSpec, next: Option<ContainerParent>,
                  mask: set<ContainerUse>, seen: set<string>)
    requires Steps(containers, next, mask, seen) && ImageSoFar(containers, s, next, mask, seen)
    ensures
      var ref := next.value.container;
      var parent := containers[ref.name];
      ImageSoFar(containers, s, parent.parent, StillWanted(parent, mask * ref.uses), seen + {ref.name})
  {
  }

  /** Where the walk ends without being followed, nothing more is inherited and the image is settled. */
  lemma ImageEnd(containers: Containers, s: ContainerSpec, next: Option<ContainerParent>,
                 mask: set<ContainerUse>, seen: set<string>)
    requires ImageSoFar(containers, s, next, mask, seen)
    requires next.None? || next.value.Image? || mask * next.value.container.uses == {}
    ensures next.Some? && next.value.Image? ==>
              var uses := next.value.image.uses * Project(mask);
              ImageField(containers, s) == if uses == {} then None else Some(ImageRef(next.value.image.name, uses))
    ensures !(next.Some? && next.value.Image?) ==> ImageField(containers, s) == None
  {
    var taken := set u: ImageUse | u in ALL_IMAGE_USES && TakesFromImage(containers, s, u);
    if next.Some? && next.value.Image? {
      assert taken == next.value.image.uses * Project(mask);
    } else {
      assert taken == {} by {
        forall f | f in mask ensures InheritedImage(containers, next, f, seen) == None {
          if next.Some? {
            assert f !in mask * next.value.container.uses;
          }
        }
      }
    }
  }

  /** The fields gathered so far; `seen` are the ancestors walked through, `next` the reference to follow. */
  datatype Walk = Walk(
    next: Option<ContainerParent>, mask: set<ContainerUse>, seen: set<string>,
    layers: seq<LayerSpec>, environment: seq<EnvironmentSpec>, mounts: seq<JobMount>,
    writable: Option<bool>, workingDirectory: Option<Path>, network: Option<JobNetwork>,
    user: Option<nat>, group: Option<nat>)

  ghost predicate SoFar(containers: Containers, s: ContainerSpec, w: Walk) {
    && ListSoFar(containers, ListField(containers, s, UseLayers, LayersOf), UseLayers, LayersOf, w.layers, w.next,
                 w.mask, w.seen)
    && ListSoFar(containers, ListField(containers, s, UseEnvironment, EnvironmentOf), UseEnvironment, EnvironmentOf,
                 w.environment, w.next, w.mask, w.seen)
    && ListSoFar(containers, ListField(containers, s, UseMounts, MountsOf), UseMounts, MountsOf, w.mounts, w.next,
                 w.mask, w.seen)
    && ScalarSoFar(containers, ScalarField(containers, s, UseEnableWritableFileSystem, WritableOf),
                   UseEnableWritableFileSystem,
                   WritableOf, w.writable, w.next, w.mask, w.seen)
    && ScalarSoFar(containers, ScalarField(containers, s, UseWorkingDirectory, WorkingDirectoryOf), UseWorkingDirectory,
                   WorkingDirectoryOf, w.workingDirectory, w.next, w.mask, w.seen)
    && ScalarSoFar(containers, ScalarField(containers, s, UseNetwork, NetworkOf), UseNetwork, NetworkOf, w.network,
                   w.next, w.mask, w.seen)
    && ScalarSoFar(containers, ScalarField(containers, s, UseUser, UserOf), UseUser, UserOf, w.user, w.next, w.mask,
                   w.seen)
    && ScalarSoFar(containers, ScalarField(containers, s, UseGroup, GroupOf), UseGroup, GroupOf, w.group, w.next,
                   w.mask, w.seen)
    && ImageSoFar(containers, s, w.next, w.mask, w.seen)
    && FateOf(containers, w.next, w.mask, w.seen)
       == FateOf(containers, s.parent, StillWanted(s, ALL_CONTAINER_USES), {})
  }

  function Start(s: ContainerSpec): Walk {
    Walk(s.parent, StillWanted(s, ALL_CONTAINER_USES), {}, s.layers, s.environment, s.mounts,
         s.enableWritableFileSystem, s.workingDirectory, s.network, s.user, s.group)
  }

  lemma StartSoFar(containers: Containers, s: ContainerSpec)
    ensures SoFar(containers, s, Start(s))
  {
  }

  /** One turn of the loop. */
  function Step(containers: Containers, w: Walk): Walk
    requires Steps(containers, w.next, w.mask, w.seen)
  {
    var ref := w.next.value.container;
    var parent := containers[ref.name];
    var wanted := w.mask * ref.uses;
    Walk(parent.parent, StillWanted(parent, wanted), w.seen + {ref.name},
         if UseLayers in wanted then parent.layers + w.layers else w.layers,
         if UseEnvironment in wanted then parent.environment + w.environment else w.environment,
         if UseMounts in wanted then parent.mounts + w.mounts else w.mounts,
         if UseEnableWritableFileSystem in wanted then parent.enableWritableFileSystem else w.writable,
         if UseWorkingDirectory in wanted then parent.workingDirectory else w.workingDirectory,
         if UseNetwork in wanted then parent.network else w.network,
         if UseUser in wanted then parent.user else w.user,
         if UseGroup in wanted then parent.group else w.group)
  }

  lemma StepSoFar(containers: Containers, s: ContainerSpec, w: Walk)
    requires Steps(containers, w.next, w.mask, w.seen) && SoFar(containers, s, w)
    ensures SoFar(containers, s, Step(containers, w))
  {
    hide ListSoFar, ScalarSoFar, ImageSoFar, ListField, ScalarField;
    ListStep(containers, ListField(containers, s, UseLayers, LayersOf), UseLayers, LayersOf, w.layers, w.next, w.mask,
             w.seen);
    ListStep(containers, ListField(containers, s, UseEnvironment, EnvironmentOf), UseEnvironment, EnvironmentOf,
             w.environment, w.next, w.mask, w.seen);
    ListStep(containers, ListField(containers, s, UseMounts, MountsOf), UseMounts, MountsOf, w.mounts, w.next, w.mask,
             w.seen);
    ScalarStep(containers, ScalarField(containers, s, UseEnableWritableFileSystem, WritableOf),
               UseEnableWritableFileSystem,
               WritableOf, w.writable, w.next, w.mask, w.seen);
    ScalarStep(containers, ScalarField(containers, s, UseWorkingDirectory, WorkingDirectoryOf), UseWorkingDirectory,
               WorkingDirectoryOf, w.workingDirectory, w.next, w.mask, w.seen);
    ScalarStep(containers, ScalarField(containers, s, UseNetwork, NetworkOf), UseNetwork, NetworkOf, w.network, w.next,
               w.mask, w.seen);
    ScalarStep(containers, ScalarField(containers, s, UseUser, UserOf), UseUser, UserOf, w.user, w.next, w.mask,
               w.seen);
    ScalarStep(containers, ScalarField(containers, s, UseGroup, GroupOf), UseGroup, GroupOf, w.group, w.next, w.mask,
               w.seen);
    ImageStep(containers, s, w.next, w.mask, w.seen);
  }

  /** What the walk yields when it ends at `w`. */
  function Finish(w: Walk, options: JobOptions): CollapsedJobSpec {
    var image := if w.next.None? || w.next.value.Container? then None
                 else
                   var uses := w.next.value.image.uses * Project(w.mask);
                   if uses == {} then None else Some(ImageRef(w.next.value.image.name, uses));
    CollapsedJobSpec(w.layers, w.writable, w.environment, w.workingDirectory, w.mounts, w.network, w.user, w.group,
                     image, map[], [], options)
  }

  lemma FinishSoFar(containers: Containers, job: ClientJobSpec, w: Walk)
    requires SoFar(containers, job.container, w)
    requires w.next.None? || w.next.value.Image? || w.mask * w.next.value.container.uses == {}
    ensures Collapse(job, containers) == Ok(Finish(w, job.options))
  {
    hide ListSoFar, ScalarSoFar, ImageSoFar, ListField, ScalarField, ImageField;
    var s := job.container;
    ListEnd(containers, ListField(containers, s, UseLayers, LayersOf), UseLayers, LayersOf, w.layers, w.next, w.mask,
            w.seen);
    ListEnd(containers, ListField(containers, s, UseEnvironment, EnvironmentOf), UseEnvironment, EnvironmentOf,
            w.environment, w.next, w.mask, w.seen);
    ListEnd(containers, ListField(containers, s, UseMounts, MountsOf), UseMounts, MountsOf, w.mounts, w.next, w.mask,
            w.seen);
    ScalarEnd(containers, ScalarField(containers, s, UseEnableWritableFileSystem, WritableOf),
              UseEnableWritableFileSystem,
              WritableOf, w.writable, w.next, w.mask, w.seen);
    ScalarEnd(containers, ScalarField(containers, s, UseWorkingDirectory, WorkingDirectoryOf), UseWorkingDirectory,
              WorkingDirectoryOf, w.workingDirectory, w.next, w.mask, w.seen);
    ScalarEnd(containers, ScalarField(containers, s, UseNetwork, NetworkOf), UseNetwork, NetworkOf, w.network, w.next,
              w.mask, w.seen);
    ScalarEnd(containers, ScalarField(containers, s, UseUser, UserOf), UseUser, UserOf, w.user, w.next, w.mask, w.seen);
    ScalarEnd(containers, ScalarField(containers, s, UseGroup, GroupOf), UseGroup, GroupOf, w.group, w.next, w.mask,
              w.seen);
    ImageEnd(containers, s, w.next, w.mask, w.seen);
  }

  lemma StopSoFar(containers: Containers, job: ClientJobSpec, w: Walk)
    requires SoFar(containers, job.container, w)
    requires w.next.Some? && w.next.value.Container? && w.mask * w.next.value.container.uses != {}
    ensures
      var name := w.next.value.container.name;
      && (name !in containers ==> Collapse(job, containers) == Err(ParentNotFound(name)))
      && (name in containers && name in w.seen ==> Collapse(job, containers) == Err(ParentLoop(name)))
  {
  }

  /** `CollapsedJobSpec::new`: one walk up the chain, under a mask of the fields still wanted. */
  method New(job: ClientJobSpec, containers: Containers) returns (r: Result<CollapsedJobSpec, CollapseError>)
    ensures r == Collapse(job, containers)
  {
    var s := job.container;
    var nextParent := s.parent;
    var layers, environment, mounts := s.layers, s.environment, s.mounts;
    var writable, workingDirectory := s.enableWritableFileSystem, s.workingDirectory;
    var network, user, group := s.network, s.user, s.group;
    var image: Option<ImageRef> := None;
    var ancestors: set<string> := {};
    var useMask := StillWanted(s, ALL_CONTAINER_USES);

    hide SoFar, Collapse;
    ghost var w := Start(s);
    StartSoFar(containers, s);
    while nextParent.Some?
      invariant SoFar(containers, s, w)
      invariant w == Walk(nextParent, useMask, ancestors, layers, environment, mounts,
                          writable, workingDirectory, network, user, group)
      invariant image == None
      decreases containers.Keys - ancestors
    {
      match nextParent.value {
        case Image(imageRef) =>
          var uses := imageRef.uses * Project(useMask);
          if uses != {} {
            image := Some(ImageRef(imageRef.name, uses));
          }
          break;
        case Container(containerRef) =>
          var wanted := useMask * containerRef.uses;
          if wanted == {} {
            break;
          }
          StopSoFar(containers, job, w);
          if containerRef.name !in containers {
            return Err(ParentNotFound(containerRef.name));
          }
          var parent := containers[containerRef.name];
          if containerRef.name in ancestors {
            return Err(ParentLoop(containerRef.name));
          }
          StepSoFar(containers, s, w);
          w := Step(containers, w);
          useMask := StillWanted(parent, wanted);
          if UseLayers in wanted {
            layers := parent.layers + layers;
          }
          if UseEnableWritableFileSystem in wanted {
            writable := parent.enableWritableFileSystem;
          }
          if UseEnvironment in wanted {
            environment := parent.environment + environment;
          }
          if UseWorkingDirectory in wanted {
            workingDirectory := parent.workingDirectory;
          }
          if UseMounts in wanted {
            mounts := parent.mounts + mounts;
          }
          if UseNetwork in wanted {
            network := parent.network;
          }
          if UseUser in wanted {
            user := parent.user;
          }
          if UseGroup in wanted {
            group := parent.group;
          }
          ancestors := ancestors + {containerRef.name};
          nextParent := parent.parent;
      }
    }
    FinishSoFar(containers, job, w);
    r := Ok(CollapsedJobSpec(layers, writable, environment, workingDirectory, mounts, network, user, group,
                             image, map[], [], job.options));
  }
}
