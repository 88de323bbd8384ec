/**
 The written form of a container (TOML or JSON) and its conversion (`spec.rs`). One rule
 decides for every field whether a form is accepted; what the fields then mean is traced
 through conversion and collapsing.
 */
module ContainerForms {
  import opened Wrappers
  import opened ContainerSpecs
  import opened CollapsedJobSpecs

  /** The `use` of a reference: everything if left out. */
  datatype Uses<T> = Implicit | Explicit(uses: set<T>)

  function AsSet<T>(u: Uses<T>, all: set<T>): set<T> {
    match u
    case Implicit => all
    case Explicit(uses) => uses
  }

  function ExplicitSet<T>(u: Uses<T>): set<T> {
    match u
    case Implicit => {}
    case Explicit(uses) => uses
  }

  datatype ImageForm = ImageForm(name: string, uses: Uses<ImageUse>)

  datatype ParentForm = ParentForm(name: string, uses: Uses<ContainerUse>)

  datatype EnvSelector = OneSpec(vars: map<string, string>) | ManySpecs(specs: seq<EnvironmentSpec>)

  function IntoEnvironmentSpecs(e: EnvSelector): seq<EnvironmentSpec> {
    match e
    case OneSpec(vars) => [EnvironmentSpec(vars, true)]
    case ManySpecs(specs) => specs
  }

  datatype ContainerForm = ContainerForm(
    image: Option<ImageForm>,
    parent: Option<ParentForm>,
    layers: Option<seq<LayerSpec>>,
    addedLayers: Option<seq<LayerSpec>>,
    environment: Option<EnvSelector>,
    addedEnvironment: Option<EnvSelector>,
    workingDirectory: Option<Path>,
    enableWritableFileSystem: Option<bool>,
    mounts: Option<seq<JobMount>>,
    addedMounts: Option<seq<JobMount>>,
    network: Option<JobNetwork>,
    user: Option<nat>,
    group: Option<nat>)

  datatype FormError =
    | BothImageAndParent
    | AddedAndReplaced(f: ContainerUse)
    | AddedToNothing(f: ContainerUse)
    | AddedToUnselected(f: ContainerUse)
    | ReplacesSelected(f: ContainerUse)

  // ----- The rule

  /** The form states the field outright. */
  predicate Gives(form: ContainerForm, f: ContainerUse) {
    match f
    case UseLayers => form.layers.Some?
    case UseEnableWritableFileSystem => form.enableWritableFileSystem.Some?
    case UseEnvironment => form.environment.Some?
    case UseWorkingDirectory => form.workingDirectory.Some?
    case UseMounts => form.mounts.Some?
    case UseNetwork => form.network.Some?
    case UseUser => form.user.Some?
    case UseGroup => form.group.Some?
  }

  /** The form adds to what it inherits. */
  predicate Adds(form: ContainerForm, f: ContainerUse) {
    match f
    case UseLayers => form.addedLayers.Some?
    case UseEnvironment => form.addedEnvironment.Some?
    case UseMounts => form.addedMounts.Some?
    case _ => false
  }

  /** The fields that an image can supply, as container fields. */
  function FromImage(uses: set<ImageUse>): set<ContainerUse> {
    set u | u in uses :: ContainerUseOf(u)
  }

  /** The fields taken from the image or parent as written. */
  function Selected(form: ContainerForm): set<ContainerUse> {
    if form.parent.Some? then AsSet(form.parent.value.uses, ALL_CONTAINER_USES)
    else if form.image.Some? then FromImage(AsSet(form.image.value.uses, ALL_IMAGE_USES))
    else {}
  }

  function SelectedByName(form: ContainerForm): set<ContainerUse> {
    if form.parent.Some? then ExplicitSet(form.parent.value.uses)
    else if form.image.Some? then FromImage(ExplicitSet(form.image.value.uses))
    else {}
  }

  /** A field may be given or added to, not both; added to only if inherited; given only if not inherited by name. */
  predicate FieldAccepted(form: ContainerForm, f: ContainerUse) {
    && !(Gives(form, f) && Adds(form, f))
    && (Adds(form, f) ==> f in Selected(form))
    && (Gives(form, f) ==> f !in SelectedByName(form))
  }

  predicate Accepted(form: ContainerForm) {
    && !(form.image.Some? && form.parent.Some?)
    && forall f: ContainerUse :: FieldAccepted(form, f)
  }

  // ----- The result

  function Given(form: ContainerForm): set<ContainerUse> {
    set f | f in ALL_CONTAINER_USES && Gives(form, f)
  }

  /** The reference as written, without the fields the form gives itself. */
  function ConvertedParent(form: ContainerForm, without: set<ContainerUse>): Option<ContainerParent> {
    if form.image.Some? then
      var all := AsSet(form.image.value.uses, ALL_IMAGE_USES);
      Some(Image(ImageRef(form.image.value.name, set u | u in all && ContainerUseOf(u) !in without)))
    else if form.parent.Some? then
      Some(Container(ContainerRef(form.parent.value.name, AsSet(form.parent.value.uses, ALL_CONTAINER_USES) - without)))
    else None
  }

  function Either<T>(given: Option<seq<T>>, added: Option<seq<T>>): seq<T> {
    if given.Some? then given.value else if added.Some? then added.value else []
  }

  function EitherEnvironment(given: Option<EnvSelector>, added: Option<EnvSelector>): seq<EnvironmentSpec> {
    if given.Some? then IntoEnvironmentSpecs(given.value)
    else if added.Some? then IntoEnvironmentSpecs(added.value)
    else []
  }

  function Converted(form: ContainerForm): ContainerSpec {
    ContainerSpec(
      ConvertedParent(form, Given(form)),
      Either(form.layers, form.addedLayers),
      EitherEnvironment(form.environment, form.addedEnvironment),
      form.workingDirectory,
      form.enableWritableFileSystem,
      Either(form.mounts, form.addedMounts),
      form.network, form.user, form.group)
  }

  // ----- What a form says, written out

  /** The reference as written: what it leaves out, it means in full. */
  function AsWritten(form: ContainerForm): Option<ContainerParent> {
    match (form.image, form.parent)
    case (Some(ImageForm(name, Implicit)), _) =>
      Some(Image(ImageRef(name, {ImageLayers, ImageEnvironment, ImageWorkingDirectory})))
    case (Some(ImageForm(name, Explicit(uses))), _) => Some(Image(ImageRef(name, uses)))
    case (None, Some(ParentForm(name, Implicit))) =>
      Some(Container(ContainerRef(name, {UseLayers, UseEnableWritableFileSystem, UseEnvironment, UseWorkingDirectory,
                                         UseMounts, UseNetwork, UseUser, UseGroup})))
    case (None, Some(ParentForm(name, Explicit(uses)))) => Some(Container(ContainerRef(name, uses)))
    case (None, None) => None
  }

  /** The reference as written can supply the field. */
  predicate Supplies(form: ContainerForm, f: ContainerUse) {
    match AsWritten(form)
    case None => false
    case Some(Container(parent)) => f in parent.uses
    case Some(Image(image)) =>
      || (f == UseLayers && ImageLayers in image.uses)
      || (f == UseEnvironment && ImageEnvironment in image.uses)
      || (f == UseWorkingDirectory && ImageWorkingDirectory in image.uses)
  }

  /** The reference selects the field by name. */
  predicate NamesField(form: ContainerForm, f: ContainerUse) {
    && Supplies(form, f)
    && (form.image.Some? ==> form.image.value.uses.Explicit?)
    && (form.image.None? ==> form.parent.value.uses.Explicit?)
  }

  /** Which forms are accepted, field by field. */
  predicate IsAcceptable(form: ContainerForm) {
    && !(form.image.Some? && form.parent.Some?)
    && !(form.layers.Some? && form.addedLayers.Some?)
    && !(form.environment.Some? && form.addedEnvironment.Some?)
    && !(form.mounts.Some? && form.addedMounts.Some?)
    && (form.addedLayers.Some? ==> Supplies(form, UseLayers))
    && (form.addedEnvironment.Some? ==> Supplies(form, UseEnvironment))
    && (form.addedMounts.Some? ==> Supplies(form, UseMounts))
    && (form.layers.Some? ==> !NamesField(form, UseLayers))
    && (form.environment.Some? ==> !NamesField(form, UseEnvironment))
    && (form.mounts.Some? ==> !NamesField(form, UseMounts))
    && (form.workingDirectory.Some? ==> !NamesField(form, UseWorkingDirectory))
    && (form.enableWritableFileSystem.Some? ==> !NamesField(form, UseEnableWritableFileSystem))
    && (form.network.Some? ==> !NamesField(form, UseNetwork))
    && (form.user.Some? ==> !NamesField(form, UseUser))
    && (form.group.Some? ==> !NamesField(form, UseGroup))
  }

  /** A use that the form does not make superfluous by giving the field itself. */
  predicate StillUsed(form: ContainerForm, f: ContainerUse) {
    match f
    case UseLayers => form.layers.None?
    case UseEnvironment => form.environment.None?
    case UseWorkingDirectory => form.workingDirectory.None?
    case UseMounts => form.mounts.None?
    case UseEnableWritableFileSystem => form.enableWritableFileSystem.None?
    case UseNetwork => form.network.None?
    case UseUser => form.user.None?
    case UseGroup => form.group.None?
  }

  /** The reference of the converted container: the one written, with the uses that are not superfluous. */
  ghost predicate RefersAsWritten(form: ContainerForm, parent: Option<ContainerParent>) {
    match (AsWritten(form), parent)
    case (None, None) => true
    case (Some(Container(written)), Some(Container(converted))) =>
      && converted.name == written.name
      && forall f :: f in converted.uses <==> f in written.uses && StillUsed(form, f)
    case (Some(Image(written)), Some(Image(converted))) =>
      && converted.name == written.name
      && (ImageLayers in converted.uses <==> ImageLayers in written.uses && form.layers.None?)
      && (ImageEnvironment in converted.uses <==> ImageEnvironment in written.uses && form.environment.None?)
      && (ImageWorkingDirectory in converted.uses <==>
          ImageWorkingDirectory in written.uses && form.workingDirectory.None?)
    case _ => false
  }

  /** An environment given as a table extends what it is evaluated over. */
  predicate EnvironmentAsWritten(e: EnvSelector, specs: seq<EnvironmentSpec>) {
    match e
    case OneSpec(vars) => |specs| == 1 && specs[0].vars == vars && specs[0].extend
    case ManySpecs(written) => specs == written
  }

  /** The converted container has everything that the form gives or adds, and nothing else. */
  ghost predicate ConvertsTo(form: ContainerForm, spec: ContainerSpec) {
    && RefersAsWritten(form, spec.parent)
    && (form.layers.Some? ==> spec.layers == form.layers.value)
    && (form.addedLayers.Some? ==> spec.layers == form.addedLayers.value)
    && (form.layers.None? && form.addedLayers.None? ==> spec.layers == [])
    && (form.environment.Some? ==> EnvironmentAsWritten(form.environment.value, spec.environment))
    && (form.addedEnvironment.Some? ==> EnvironmentAsWritten(form.addedEnvironment.value, spec.environment))
    && (form.environment.None? && form.addedEnvironment.None? ==> spec.environment == [])
    && (form.mounts.Some? ==> spec.mounts == form.mounts.value)
    && (form.addedMounts.Some? ==> spec.mounts == form.addedMounts.value)
    && (form.mounts.None? && form.addedMounts.None? ==> spec.mounts == [])
    && spec.workingDirectory == form.workingDirectory && spec.network == form.network
    && spec.enableWritableFileSystem == form.enableWritableFileSystem
    && spec.user == form.user && spec.group == form.group
  }

  lemma WrittenReference(form: ContainerForm)
    requires !(form.image.Some? && form.parent.Some?)
    ensures ConvertedParent(form, {}) == AsWritten(form)
    ensures RefersAsWritten(form, ConvertedParent(form, Given(form)))
  {
    match (form.image, form.parent) {
      case (Some(image), _) =>
        assert ConvertedParent(form, {}).value.image.uses == AsWritten(form).value.image.uses;
        forall u: ImageUse ensures ContainerUseOf(u) in Given(form) <==> Gives(form, ContainerUseOf(u)) {
          match u { case ImageLayers => case ImageEnvironment => case ImageWorkingDirectory => }
        }
      case (None, Some(parent)) =>
        forall f: ContainerUse ensures f in Given(form) <==> !StillUsed(form, f) {
          AllUses(f);
        }
        assert ConvertedParent(form, {}).value.container.uses == AsWritten(form).value.container.uses;
      case _ =>
    }
  }

  lemma AllUses(f: ContainerUse)
    ensures f in ALL_CONTAINER_USES
  {
    match f { case UseLayers => case UseEnableWritableFileSystem => case UseEnvironment => case UseWorkingDirectory =>
              case UseMounts => case UseNetwork => case UseUser => case UseGroup => }
  }

  /** What the reference supplies and names, and the rule decided field by field. */
  lemma SelectedMeans(form: ContainerForm, f: ContainerUse)
    requires !(form.image.Some? && form.parent.Some?)
    ensures f in Selected(form) <==> Supplies(form, f)
    ensures f in SelectedByName(form) <==> NamesField(form, f)
  {
    AllUses(f);
    if form.image.Some? {
      var all := AsSet(form.image.value.uses, ALL_IMAGE_USES);
      var named := ExplicitSet(form.image.value.uses);
      FromImageMeans(all, f);
      FromImageMeans(named, f);
    }
  }

  lemma FromImageMeans(uses: set<ImageUse>, f: ContainerUse)
    ensures f in FromImage(uses) <==> (f == UseLayers && ImageLayers in uses)
                                      || (f == UseEnvironment && ImageEnvironment in uses)
                                      || (f == UseWorkingDirectory && ImageWorkingDirectory in uses)
  {
    forall u | u in uses && ContainerUseOf(u) == f ensures f in FromImage(uses) {
    }
    match f { case UseLayers => assert ContainerUseOf(ImageLayers) == f;
              case UseEnvironment => assert ContainerUseOf(ImageEnvironment) == f;
              case UseWorkingDirectory => assert ContainerUseOf(ImageWorkingDirectory) == f;
              case _ => }
  }

  lemma AcceptedMeans(form: ContainerForm)
    ensures Accepted(form) <==> IsAcceptable(form)
  {
    hide Supplies, NamesField, Selected, SelectedByName;
    if !(form.image.Some? && form.parent.Some?) {
      forall f: ContainerUse ensures f in Selected(form) <==> Supplies(form, f) {
        SelectedMeans(form, f);
      }
      forall f: ContainerUse ensures f in SelectedByName(form) <==> NamesField(form, f) {
        SelectedMeans(form, f);
      }
      if Accepted(form) {
        assert FieldAccepted(form, UseLayers) && FieldAccepted(form, UseEnvironment) && FieldAccepted(form, UseMounts);
        assert FieldAccepted(form, UseWorkingDirectory) && FieldAccepted(form, UseEnableWritableFileSystem);
        assert FieldAccepted(form, UseNetwork) && FieldAccepted(form, UseUser) && FieldAccepted(form, UseGroup);
      }
    }
  }

  lemma ConvertedMeans(form: ContainerForm)
    requires Accepted(form)
    ensures ConvertsTo(form, Converted(form))
  {
    hide ConvertedParent, RefersAsWritten, FieldAccepted;
    WrittenReference(form);
    AcceptedMeans(form);
  }

  // ----- The conversion

  /** The checks on one list field that an image can supply; tells whether to drop it from the reference. */
  method CheckList(form: ContainerForm, f: ContainerUse) returns (r: Result<bool, FormError>)
    requires !(form.image.Some? && form.parent.Some?)
    requires f in {UseLayers, UseEnvironment}
    ensures r.Ok? <==> FieldAccepted(form, f)
    ensures r.Ok? ==> (r.value <==> Gives(form, f))
  {
    var given, added := Gives(form, f), Adds(form, f);
    var u := if f == UseLayers then ImageLayers else ImageEnvironment;
    if !given && !added {
      return Ok(false);
    } else if given && added {
      return Err(AddedAndReplaced(f));
    } else if added {
      if form.image.Some? {
        if u !in AsSet(form.image.value.uses, ALL_IMAGE_USES) {
          return Err(AddedToUnselected(f));
        }
      } else if form.parent.Some? {
        if f !in AsSet(form.parent.value.uses, ALL_CONTAINER_USES) {
          return Err(AddedToUnselected(f));
        }
      } else {
        return Err(AddedToNothing(f));
      }
      return Ok(false);
    } else {
      if form.image.Some? {
        if u in ExplicitSet(form.image.value.uses) {
          return Err(ReplacesSelected(f));
        }
      } else if form.parent.Some? {
        if f in ExplicitSet(form.parent.value.uses) {
          return Err(ReplacesSelected(f));
        }
      }
      return Ok(true);
    }
  }

  /** The check on one field that only a parent can supply. */
  method CheckParentField(form: ContainerForm, f: ContainerUse) returns (r: Result<bool, FormError>)
    requires !(form.image.Some? && form.parent.Some?)
    requires f in {UseEnableWritableFileSystem, UseNetwork, UseUser, UseGroup}
    ensures r.Ok? <==> FieldAccepted(form, f)
    ensures r.Ok? ==> (r.value <==> Gives(form, f) && form.parent.Some?)
  {
    if Gives(form, f) && form.parent.Some? {
      if f in ExplicitSet(form.parent.value.uses) {
        return Err(ReplacesSelected(f));
      }
      return Ok(true);
    }
    return Ok(false);
  }

  method CheckWorkingDirectory(form: ContainerForm) returns (r: Result<bool, FormError>)
    requires !(form.image.Some? && form.parent.Some?)
    ensures r.Ok? <==> FieldAccepted(form, UseWorkingDirectory)
    ensures r.Ok? ==> (r.value <==> Gives(form, UseWorkingDirectory) && (form.image.Some? || form.parent.Some?))
  {
    if form.workingDirectory.Some? {
      if form.image.Some? && ImageWorkingDirectory in ExplicitSet(form.image.value.uses) {
        return Err(ReplacesSelected(UseWorkingDirectory));
      }
      if form.parent.Some? && UseWorkingDirectory in ExplicitSet(form.parent.value.uses) {
        return Err(ReplacesSelected(UseWorkingDirectory));
      }
      return Ok(form.image.Some? || form.parent.Some?);
    }
    return Ok(false);
  }

  method CheckMounts(form: ContainerForm) returns (r: Result<bool, FormError>)
    requires !(form.image.Some? && form.parent.Some?)
    ensures r.Ok? <==> FieldAccepted(form, UseMounts)
    ensures r.Ok? ==> (r.value <==> Gives(form, UseMounts) && form.parent.Some?)
  {
    match (form.mounts, form.addedMounts, form.parent) {
      case (None, None, _) => return Ok(false);
      case (Some(_), Some(_), _) => return Err(AddedAndReplaced(UseMounts));
      case (None, Some(_), None) => return Err(AddedToNothing(UseMounts));
      case (None, Some(_), Some(parent)) =>
        if UseMounts !in AsSet(parent.uses, ALL_CONTAINER_USES) {
          return Err(AddedToUnselected(UseMounts));
        }
        return Ok(false);
      case (Some(_), None, None) => return Ok(false);
      case (Some(_), None, Some(parent)) =>
        if UseMounts in ExplicitSet(parent.uses) {
          return Err(ReplacesSelected(UseMounts));
        }
        return Ok(true);
    }
  }

  /** One step of the conversion: the field's check, and the field dropped from the reference if need be. */
  method CheckField(form: ContainerForm, f: ContainerUse, toRemove: set<ContainerUse>)
    returns (r: Result<set<ContainerUse>, FormError>)
    requires !(form.image.Some? && form.parent.Some?)
    ensures r.Ok? <==> FieldAccepted(form, f)
    ensures r.Ok? ==> r.value == toRemove + DroppedOf(form, f)
  {
    hide FieldAccepted, Gives;
    var drop: Result<bool, FormError>;
    match f {
      case UseLayers => drop := CheckList(form, f);
      case UseEnvironment => drop := CheckList(form, f);
      case UseWorkingDirectory => drop := CheckWorkingDirectory(form);
      case UseMounts => drop := CheckMounts(form);
      case _ => drop := CheckParentField(form, f);
    }
    match drop {
      case Err(error) => r := Err(error);
      case Ok(d) => r := Ok(if d then toRemove + {f} else toRemove);
    }
  }

  /** The given fields are dropped from the reference, except those that this kind of reference cannot supply. */
  predicate Dropped(form: ContainerForm, f: ContainerUse) {
    && Gives(form, f)
    && match f
       case UseLayers => true
       case UseEnvironment => true
       case UseWorkingDirectory => form.image.Some? || form.parent.Some?
       case _ => form.parent.Some?
  }

  function DroppedOf(form: ContainerForm, f: ContainerUse): set<ContainerUse> {
    if Dropped(form, f) then {f} else {}
  }

  /** All the checks, in order; the result is what to drop from the reference. */
  method CheckFields(form: ContainerForm) returns (r: Result<set<ContainerUse>, FormError>)
    requires !(form.image.Some? && form.parent.Some?)
    ensures r.Ok? <==> forall f: ContainerUse :: FieldAccepted(form, f)
    ensures r.Ok? ==> forall f: ContainerUse :: f in r.value <==> Dropped(form, f)
  {
    hide FieldAccepted, Dropped, DroppedOf;
    var toRemove :- CheckField(form, UseLayers, {});
    toRemove :- CheckField(form, UseEnvironment, toRemove);
    toRemove :- CheckField(form, UseWorkingDirectory, toRemove);
    toRemove :- CheckField(form, UseEnableWritableFileSystem, toRemove);
    toRemove :- CheckField(form, UseMounts, toRemove);
    toRemove :- CheckField(form, UseNetwork, toRemove);
    toRemove :- CheckField(form, UseUser, toRemove);
    toRemove :- CheckField(form, UseGroup, toRemove);
    forall f: ContainerUse ensures FieldAccepted(form, f) {
      match f { case UseLayers => case UseEnableWritableFileSystem => case UseEnvironment => case UseWorkingDirectory =>
                case UseMounts => case UseNetwork => case UseUser => case UseGroup => }
    }
    DroppedTogether(form, toRemove);
    r := Ok(toRemove);
  }

  lemma DroppedTogether(form: ContainerForm, dropped: set<ContainerUse>)
    requires dropped == {} + DroppedOf(form, UseLayers) + DroppedOf(form, UseEnvironment)
                        + DroppedOf(form, UseWorkingDirectory) + DroppedOf(form, UseEnableWritableFileSystem)
                        + DroppedOf(form, UseMounts) + DroppedOf(form, UseNetwork)
                        + DroppedOf(form, UseUser) + DroppedOf(form, UseGroup)
    ensures forall f: ContainerUse :: f in dropped <==> Dropped(form, f)
  {
    hide Dropped;
    forall f: ContainerUse ensures f in dropped <==> Dropped(form, f) {
      match f { case UseLayers => case UseEnableWritableFileSystem => case UseEnvironment => case UseWorkingDirectory =>
                case UseMounts => case UseNetwork => case UseUser => case UseGroup => }
    }
  }

  /** `ContainerSpec::try_from`: succeeds exactly on accepted forms, with the converted container. */
  method TryFrom(form: ContainerForm) returns (r: Result<ContainerSpec, FormError>)
    ensures r.Ok? <==> Accepted(form)
    ensures r.Ok? ==> r.value == Converted(form)
    ensures r.Ok? <==> IsAcceptable(form)
    ensures r.Ok? ==> ConvertsTo(form, r.value)
  {
    hide FieldAccepted, Dropped, ConvertedParent, IsAcceptable, ConvertsTo;
    AcceptedMeans(form);
    if Accepted(form) {
      ConvertedMeans(form);
    }
    if form.image.Some? && form.parent.Some? {
      return Err(BothImageAndParent);
    }
    var toRemove :- CheckFields(form);
    RemovedIsGiven(form, toRemove);
    r := Ok(ContainerSpec(
              ConvertedParent(form, toRemove),
              Either(form.layers, form.addedLayers),
              EitherEnvironment(form.environment, form.addedEnvironment),
              form.workingDirectory, form.enableWritableFileSystem,
              Either(form.mounts, form.addedMounts),
              form.network, form.user, form.group));
  }

  /** Dropping the given fields that the reference could supply is dropping all given fields. */
  lemma RemovedIsGiven(form: ContainerForm, toRemove: set<ContainerUse>)
    requires !(form.image.Some? && form.parent.Some?)
    requires forall f: ContainerUse :: f in toRemove <==> Dropped(form, f)
    ensures ConvertedParent(form, toRemove) == ConvertedParent(form, Given(form))
  {
    if form.parent.Some? {
      assert toRemove == Given(form);
    } else if form.image.Some? {
      forall u: ImageUse ensures ContainerUseOf(u) in toRemove <==> ContainerUseOf(u) in Given(form) {
        match u { case ImageLayers => case ImageEnvironment => case ImageWorkingDirectory => }
      }
      var all := AsSet(form.image.value.uses, ALL_IMAGE_USES);
      assert (set u | u in all && ContainerUseOf(u) !in toRemove)
          == (set u | u in all && ContainerUseOf(u) !in Given(form));
    }
  }

  // ----- From the written form to the collapsed specification

  /** What a list field inherits through the reference exactly as written. */
  function InheritedAsWritten<T>(containers: Containers, form: ContainerForm, f: ContainerUse,
                                 get: ContainerSpec -> seq<T>): seq<T> {
    InheritedList(containers, AsWritten(form), f, get, {})
  }

  function ScalarAsWritten<T>(containers: Containers, form: ContainerForm, f: ContainerUse,
                              get: ContainerSpec -> Option<T>): Option<T> {
    InheritedScalar(containers, AsWritten(form), f, get, {})
  }

  /** Given lists replace what is inherited; added lists come after it. */
  lemma ListMeaning<T>(containers: Containers, form: ContainerForm, f: ContainerUse, get: ContainerSpec -> seq<T>)
    requires Accepted(form) && IsList(f)
    ensures
      var own := get(Converted(form));
      ListField(containers, Converted(form), f, get)
      == if Gives(form, f) then own else InheritedAsWritten(containers, form, f, get) + own
  {
    WrittenReference(form);
    if Gives(form, f) {
      assert f in Given(form);
      assert [] + get(Converted(form)) == get(Converted(form));
    }
  }

  /** A given scalar replaces what is inherited; otherwise it is inherited through the reference as written. */
  lemma ScalarMeaning<T>(containers: Containers, form: ContainerForm, f: ContainerUse, get: ContainerSpec -> Option<T>)
    requires Accepted(form) && !IsList(f)
    requires get(Converted(form)).Some? <==> Gives(form, f)
    ensures ScalarField(containers, Converted(form), f, get)
         == if Gives(form, f) then get(Converted(form)) else ScalarAsWritten(containers, form, f, get)
  {
    WrittenReference(form);
  }

  /** From an image, exactly the selected fields that the form does not give itself. */
  lemma ImageMeaning(containers: Containers, form: ContainerForm)
    requires Accepted(form) && form.image.Some?
    ensures
      var uses := set u | u in AsWritten(form).value.image.uses && StillUsed(form, ContainerUseOf(u));
      ImageField(containers, Converted(form))
      == if uses == {} then None else Some(ImageRef(form.image.value.name, uses))
  {
    var s := Converted(form);
    var uses := set u | u in AsWritten(form).value.image.uses && StillUsed(form, ContainerUseOf(u));
    WrittenReference(form);
    var taken := set u: ImageUse | u in ALL_IMAGE_USES && TakesFromImage(containers, s, u);
    forall u: ImageUse ensures u in taken <==> u in uses {
      assert u in ALL_IMAGE_USES && ContainerUseOf(u) in ALL_CONTAINER_USES by {
        match u { case ImageLayers => case ImageEnvironment => case ImageWorkingDirectory => }
      }
      assert InheritedImage(containers, s.parent, ContainerUseOf(u), {}) == Some(s.parent.value.image);
    }
    assert taken == uses;
  }

  /** The whole way: what each written field means in the collapsed specification. */
  lemma WrittenMeaning(containers: Containers, form: ContainerForm, options: JobOptions, c: CollapsedJobSpec)
    requires Accepted(form) && Collapse(ClientJobSpec(Converted(form), options), containers) == Ok(c)
    ensures form.layers.Some? ==> c.layers == form.layers.value
    ensures form.addedLayers.Some? ==>
              c.layers == InheritedAsWritten(containers, form, UseLayers, LayersOf) + form.addedLayers.value
    ensures form.layers.None? && form.addedLayers.None? ==>
              c.layers == InheritedAsWritten(containers, form, UseLayers, LayersOf)
    ensures form.environment.None? && form.addedEnvironment.None? ==>
              c.environment == InheritedAsWritten(containers, form, UseEnvironment, EnvironmentOf)
    ensures form.mounts.None? && form.addedMounts.None? ==>
              c.mounts == InheritedAsWritten(containers, form, UseMounts, MountsOf)
    ensures form.environment.Some? ==> c.environment == IntoEnvironmentSpecs(form.environment.value)
    ensures form.addedEnvironment.Some? ==>
              c.environment == InheritedAsWritten(containers, form, UseEnvironment, EnvironmentOf)
                             + IntoEnvironmentSpecs(form.addedEnvironment.value)
    ensures form.mounts.Some? ==> c.mounts == form.mounts.value
    ensures form.addedMounts.Some? ==>
              c.mounts == InheritedAsWritten(containers, form, UseMounts, MountsOf) + form.addedMounts.value
    ensures c.workingDirectory == if form.workingDirectory.Some? then form.workingDirectory
                                  else ScalarAsWritten(containers, form, UseWorkingDirectory, WorkingDirectoryOf)
    ensures c.enableWritableFileSystem == if form.enableWritableFileSystem.Some? then form.enableWritableFileSystem
                                          else ScalarAsWritten(containers, form, UseEnableWritableFileSystem,
                                                               WritableOf)
    ensures c.network
         == if form.network.Some? then form.network else ScalarAsWritten(containers, form, UseNetwork, NetworkOf)
    ensures c.user == if form.user.Some? then form.user else ScalarAsWritten(containers, form, UseUser, UserOf)
    ensures c.group == if form.group.Some? then form.group else ScalarAsWritten(containers, form, UseGroup, GroupOf)
  {
    hide InheritedAsWritten, ScalarAsWritten, ListField, ScalarField, ImageField, FateOf;
    assert FieldAccepted(form, UseLayers) && FieldAccepted(form, UseEnvironment) && FieldAccepted(form, UseMounts);
    ListMeaning(containers, form, UseLayers, LayersOf);
    ListMeaning(containers, form, UseEnvironment, EnvironmentOf);
    ListMeaning(containers, form, UseMounts, MountsOf);
    ScalarMeaning(containers, form, UseWorkingDirectory, WorkingDirectoryOf);
    ScalarMeaning(containers, form, UseEnableWritableFileSystem, WritableOf);
    ScalarMeaning(containers, form, UseNetwork, NetworkOf);
    ScalarMeaning(containers, form, UseUser, UserOf);
    ScalarMeaning(containers, form, UseGroup, GroupOf);
  }
}
