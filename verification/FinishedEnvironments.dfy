/**
 The environment from the written form to the finished job: what inherited and added
 specifications come to in the strings that the job is run with.
 */
module FinishedEnvironments {
  import opened Wrappers
  import opened ContainerSpecs
  import opened CollapsedJobSpecs
  import opened ContainerForms
  import opened JobPreparation
  import opened EnvironmentEvaluation

  /** `evaluate_environment` as the preparer is given it: `environment_eval` with the client's own variables. */
  function Evaluator(substitute: Substitute): EvaluateEnvironment {
    (initial: map<string, string>, specs: seq<EnvironmentSpec>) =>
      match Evaluate(substitute, initial, specs)
      case None => Err(Remote("environment"))
      case Some(env) => Ok(Render(env))
  }

  /** The environment that a job starts from: the image's, if its image supplies one, and otherwise none. */
  function InitialEnvironment(world: World, job: ClientJobSpec, containers: Containers): map<string, string>
    requires Sequential(world, job, containers).Ok?
  {
    CollapsedIsReady(job, containers);
    var c := Collapse(job, containers).value;
    if c.image.Some? && ImageEnvironment in c.image.value.uses
    then ImageVariables(world.imageResult(c.image.value.name).value).value
    else map[]
  }

  /** The finished strings are those of the collapsed specifications evaluated over the initial environment. */
  lemma FinishedEnvironment(world: World, substitute: Substitute, job: ClientJobSpec, containers: Containers)
    requires world.evaluateEnvironment == Evaluator(substitute)
    requires Sequential(world, job, containers).Ok?
    ensures
      var specs := Collapse(job, containers).value.environment;
      var env := Evaluate(substitute, InitialEnvironment(world, job, containers), specs);
      && env.Some? && Sequential(world, job, containers).value.environment == Render(env.value)
      && exists names :: Lists(env.value, names, Sequential(world, job, containers).value.environment)
  {
    hide Collapse, Resolve, Check, Evaluate, Render, Lists;
    CollapsedIsReady(job, containers);
    var specs := Collapse(job, containers).value.environment;
    RenderLists(Evaluate(substitute, InitialEnvironment(world, job, containers), specs).value);
  }

  /**
   What each way of writing an environment comes to: a given one is evaluated over the initial
   environment alone, an added one over what the inherited one evaluates to.
   */
  lemma WrittenEnvironment(world: World, substitute: Substitute, containers: Containers, form: ContainerForm,
                           options: JobOptions)
    requires world.evaluateEnvironment == Evaluator(substitute) && Accepted(form)
    requires Sequential(world, ClientJobSpec(Converted(form), options), containers).Ok?
    ensures
      var job := ClientJobSpec(Converted(form), options);
      var initial := InitialEnvironment(world, job, containers);
      var inherited := InheritedAsWritten(containers, form, UseEnvironment, EnvironmentOf);
      var below := if form.environment.Some? then Some(initial) else Evaluate(substitute, initial, inherited);
      var own := EitherEnvironment(form.environment, form.addedEnvironment);
      && below.Some? && Evaluate(substitute, below.value, own).Some?
      && Sequential(world, job, containers).value.environment == Render(Evaluate(substitute, below.value, own).value)
  {
    hide Collapse, Evaluate, Render, Sequential, InitialEnvironment, InheritedAsWritten, Accepted, Converted;
    var job := ClientJobSpec(Converted(form), options);
    FinishedEnvironment(world, substitute, job, containers);
    var c := SequentialCollapses(world, job, containers);
    WrittenMeaning(containers, form, options, c);
    OneEnvironment(form);
    var initial := InitialEnvironment(world, job, containers);
    var inherited := InheritedAsWritten(containers, form, UseEnvironment, EnvironmentOf);
    if form.environment.None? {
      EvaluateAdded(substitute, initial, inherited, EitherEnvironment(form.environment, form.addedEnvironment));
      assert inherited + [] == inherited;
    }
  }

  lemma SequentialCollapses(world: World, job: ClientJobSpec, containers: Containers) returns (c: CollapsedJobSpec)
    requires Sequential(world, job, containers).Ok?
    ensures Collapse(job, containers) == Ok(c)
  {
    c := Collapse(job, containers).value;
  }

  lemma OneEnvironment(form: ContainerForm)
    requires Accepted(form)
    ensures !(form.environment.Some? && form.addedEnvironment.Some?)
  {
    assert FieldAccepted(form, UseEnvironment);
  }
}
