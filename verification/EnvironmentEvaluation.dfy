/**
 Evaluating a job's environment (`maelstrom-client-base/src/spec.rs`, `environment_eval`): the
 specifications in turn, each over what the ones before it gave. What `substitute` makes of a
 value, given the environment so far, is a parameter.
 */
module EnvironmentEvaluation {
  import opened Wrappers
  import opened ContainerSpecs
  import opened KeyOrder

  type Environment = map<string, string>

  /** The value of a template over an environment, or nothing if it cannot be evaluated. */
  type Substitute = (string, Environment) -> Option<string>

  /** `substitute_environment`: every variable over the same environment. */
  function SubstituteAll(substitute: Substitute, prev: Environment, vars: Environment): Option<Environment> {
    if forall k :: k in vars ==> substitute(vars[k], prev).Some? then
      Some(map k | k in vars :: substitute(vars[k], prev).value)
    else
      None
  }

  /** One specification: added to the environment, or in its place. */
  function EvaluateOne(substitute: Substitute, env: Environment, spec: EnvironmentSpec): Option<Environment> {
    var values :- SubstituteAll(substitute, env, spec.vars);
    Some(if spec.extend then env + values else values)
  }

  /** All specifications: the last one over what those before it give. */
  function Evaluate(substitute: Substitute, env: Environment, specs: seq<EnvironmentSpec>): Option<Environment> {
    if specs == [] then Some(env)
    else
      var before :- Evaluate(substitute, env, specs[..|specs| - 1]);
      EvaluateOne(substitute, before, specs[|specs| - 1])
  }

  lemma {:induction false} FailureStays(substitute: Substitute, env: Environment, specs: seq<EnvironmentSpec>, i: nat)
    requires i <= |specs| && Evaluate(substitute, env, specs[..i]).None?
    ensures Evaluate(substitute, env, specs).None?
    decreases |specs|
  {
    if i < |specs| {
      assert specs[..|specs| - 1][..i] == specs[..i];
      FailureStays(substitute, env, specs[..|specs| - 1], i);
    } else {
      assert specs[..i] == specs;
    }
  }

  /** The specification at `i` is reached, and one of its values cannot be evaluated over what is there by then. */
  ghost predicate Fails(substitute: Substitute, env: Environment, specs: seq<EnvironmentSpec>, i: nat)
    requires i < |specs|
  {
    && Evaluate(substitute, env, specs[..i]).Some?
    && exists name :: name in specs[i].vars
                      && substitute(specs[i].vars[name], Evaluate(substitute, env, specs[..i]).value).None?
  }

  /** The evaluation fails exactly if some value cannot be evaluated where its turn comes. */
  lemma {:induction false} FailsSomewhere(substitute: Substitute, env: Environment, specs: seq<EnvironmentSpec>)
    ensures Evaluate(substitute, env, specs).None? <==> exists i :: 0 <= i < |specs| && Fails(substitute, env, specs, i)
  {
    if specs == [] {
    } else {
      var front, last := specs[..|specs| - 1], |specs| - 1;
      FailsSomewhere(substitute, env, front);
      forall i | 0 <= i < |front| ensures Fails(substitute, env, front, i) <==> Fails(substitute, env, specs, i) {
        assert front[..i] == specs[..i];
      }
      if Evaluate(substitute, env, front).None? {
        var i :| 0 <= i < |front| && Fails(substitute, env, front, i);
        assert Fails(substitute, env, specs, i);
      } else {
        assert Evaluate(substitute, env, specs).None? <==> Fails(substitute, env, specs, last);
      }
    }
  }

  // ----- The finished strings

  function Codes(s: string): (r: seq<int>)
    ensures |r| == |s|
  {
    seq(|s|, i requires 0 <= i < |s| => s[i] as int)
  }

  predicate Before(a: string, b: string) {
    Lt(Codes(a), Codes(b))
  }

  /** Dictionary order of names, said outright. */
  ghost predicate NamedBefore(a: string, b: string) {
    exists n: nat :: PartAt(a, b, n) && (n == |a| || a[n] < b[n])
  }

  predicate PartAt(a: string, b: string, n: nat) {
    n <= |a| && n < |b| && a[..n] == b[..n]
  }

  lemma BeforeIsDictionaryOrder(a: string, b: string)
    ensures Before(a, b) <==> NamedBefore(a, b)
  {
    LtIsDictionaryOrder(Codes(a), Codes(b));
    forall n: nat | n <= |a| && n < |b| ensures PartAt(a, b, n) <==> DiffersAt(Codes(a), Codes(b), n) {
      SameCodes(a[..n], b[..n]);
      assert Codes(a[..n]) == Codes(a)[..n] && Codes(b[..n]) == Codes(b)[..n];
    }
  }

  lemma SameCodes(a: string, b: string)
    ensures Codes(a) == Codes(b) <==> a == b
  {
    if Codes(a) == Codes(b) {
      assert |Codes(a)| == |Codes(b)|;
      forall i | 0 <= i < |a| ensures a[i] == b[i] {
        assert Codes(a)[i] == Codes(b)[i];
      }
    }
  }

  /** `a` comes before every other name. */
  predicate IsFirst(a: string, names: set<string>) {
    a in names && forall b :: b in names && b != a ==> Before(a, b)
  }

  lemma {:induction false} SomeNameIsFirst(names: set<string>) returns (first: string)
    requires names != {}
    ensures IsFirst(first, names)
    decreases names
  {
    var a :| a in names;
    if names == {a} {
      first := a;
    } else {
      var b := SomeNameIsFirst(names - {a});
      assert names == (names - {a}) + {a};
      SameCodes(a, b);
      CompareEqual(Codes(a), Codes(b));
      CompareFlip(Codes(a), Codes(b));
      first := if Before(a, b) then a else b;
      forall c | c in names && c != first ensures Before(first, c) {
        if first == a && c != b {
          LtTransitive(Codes(a), Codes(b), Codes(c));
        }
      }
    }
  }

  lemma OneIsFirst(names: set<string>)
    ensures names != {} ==> exists a :: IsFirst(a, names)
    ensures forall a, b :: IsFirst(a, names) && IsFirst(b, names) ==> a == b
  {
    forall a, b | IsFirst(a, names) && IsFirst(b, names) ensures a == b {
      CompareFlip(Codes(a), Codes(b));
    }
    if names != {} {
      var _ := SomeNameIsFirst(names);
    }
  }

  /** The names in their order. */
  function InOrder(names: set<string>): (r: seq<string>)
    decreases names
  {
    if names == {} then []
    else
      OneIsFirst(names);
      var first :| IsFirst(first, names);
      [first] + InOrder(names - {first})
  }

  lemma {:induction false} InOrderIsSorted(names: set<string>)
    ensures forall name :: name in InOrder(names) <==> name in names
    ensures forall i, j :: 0 <= i < j < |InOrder(names)| ==> Before(InOrder(names)[i], InOrder(names)[j])
    decreases names
  {
    if names == {} {
    } else {
      var first, rest := InOrder(names)[0], InOrder(names)[1..];
      assert InOrder(names) == [first] + rest;
      assert IsFirst(first, names) && rest == InOrder(names - {first});
      InOrderIsSorted(names - {first});
      PrependFirst(first, rest, names);
    }
  }

  lemma PrependFirst(first: string, rest: seq<string>, names: set<string>)
    requires IsFirst(first, names)
    requires forall name :: name in rest <==> name in names - {first}
    requires forall i, j :: 0 <= i < j < |rest| ==> Before(rest[i], rest[j])
    ensures
      var r := [first] + rest;
      && (forall name :: name in r <==> name in names)
      && (forall i, j :: 0 <= i < j < |r| ==> Before(r[i], r[j]))
  {
    hide Before;
    var r := [first] + rest;
    assert forall name :: name in r <==> name == first || name in rest;
    forall i, j | 0 <= i < j < |r| ensures Before(r[i], r[j]) {
      assert r[j] == rest[j - 1] && r[j] in rest;
    }
  }

  /** One string for each variable, in the order of the names. */
  function Render(env: Environment): (r: seq<string>)
  {
    InOrderIsSorted(env.Keys);
    var names := InOrder(env.Keys);
    seq(|names|, i requires 0 <= i < |names| => names[i] + "=" + env[names[i]])
  }

  /** The strings `strings` are `name=value` for each variable of `env`, in dictionary order of the names. */
  ghost predicate Lists(env: Environment, names: seq<string>, strings: seq<string>) {
    && (forall name :: name in names <==> name in env)
    && (forall i, j :: 0 <= i < j < |names| ==> NamedBefore(names[i], names[j]))
    && |strings| == |names|
    && (forall i :: 0 <= i < |names| ==> names[i] in env && strings[i] == names[i] + "=" + env[names[i]])
  }

  lemma RenderLists(env: Environment)
    ensures Lists(env, InOrder(env.Keys), Render(env))
  {
    hide Before, NamedBefore, InOrder;
    InOrderIsSorted(env.Keys);
    var names := InOrder(env.Keys);
    forall i, j | 0 <= i < j < |names| ensures NamedBefore(names[i], names[j]) {
      BeforeIsDictionaryOrder(names[i], names[j]);
    }
  }

  /** The loop over the specifications, and the finished strings. */
  method EnvironmentEval(substitute: Substitute, initial: Environment, specs: seq<EnvironmentSpec>)
    returns (r: Option<seq<string>>)
    ensures r == match Evaluate(substitute, initial, specs) case None => None case Some(env) => Some(Render(env))
    ensures r.Some? ==> exists names :: Lists(Evaluate(substitute, initial, specs).value, names, r.value)
    ensures r.None? <==> exists i :: 0 <= i < |specs| && Fails(substitute, initial, specs, i)
  {
    hide Lists, Fails;
    FailsSomewhere(substitute, initial, specs);
    var runningEnv := initial;
    for i := 0 to |specs|
      invariant Evaluate(substitute, initial, specs[..i]) == Some(runningEnv)
    {
      assert specs[..i + 1][..i] == specs[..i];
      var values := SubstituteAll(substitute, runningEnv, specs[i].vars);
      if values.None? {
        FailureStays(substitute, initial, specs, i + 1);
        return None;
      }
      if specs[i].extend {
        runningEnv := runningEnv + values.value;
      } else {
        runningEnv := values.value;
      }
    }
    assert specs[..|specs|] == specs;
    RenderLists(runningEnv);
    r := Some(Render(runningEnv));
  }

  // ----- What this means for an inherited environment

  /** Evaluating inherited specifications followed by added ones is evaluating the added over the inherited. */
  lemma {:induction false} EvaluateAdded(substitute: Substitute, env: Environment, inherited: seq<EnvironmentSpec>,
                                         added: seq<EnvironmentSpec>)
    ensures Evaluate(substitute, env, inherited + added)
         == match Evaluate(substitute, env, inherited)
            case None => None
            case Some(below) => Evaluate(substitute, below, added)
    decreases |added|
  {
    if added == [] {
      assert inherited + added == inherited;
    } else {
      var n := |added| - 1;
      assert (inherited + added)[..|inherited + added| - 1] == inherited + added[..n];
      EvaluateAdded(substitute, env, inherited, added[..n]);
    }
  }

  /** The variables that are set in the end: those named since the last specification that does not extend. */
  function Names(initial: set<string>, specs: seq<EnvironmentSpec>): set<string> {
    if specs == [] then initial
    else
      var last := specs[|specs| - 1];
      (if last.extend then Names(initial, specs[..|specs| - 1]) else {}) + last.vars.Keys
  }

  lemma {:induction false} EvaluatedNames(substitute: Substitute, env: Environment, specs: seq<EnvironmentSpec>)
    ensures Evaluate(substitute, env, specs).Some? ==>
              Evaluate(substitute, env, specs).value.Keys == Names(env.Keys, specs)
  {
    if specs == [] {
    } else {
      EvaluatedNames(substitute, env, specs[..|specs| - 1]);
    }
  }

  /** The last specification that names a variable. */
  function LastNaming(specs: seq<EnvironmentSpec>, name: string): Option<nat> {
    if specs == [] then None
    else if name in specs[|specs| - 1].vars then Some(|specs| - 1)
    else LastNaming(specs[..|specs| - 1], name)
  }

  /**
   Where a variable's value comes from: the last specification that names it, over the environment
   just before that one; or else the initial environment, whose values are taken as they are.
   */
  lemma {:induction false} ValueComesFrom(substitute: Substitute, env: Environment, specs: seq<EnvironmentSpec>,
                                          name: string)
    requires Evaluate(substitute, env, specs).Some? && name in Evaluate(substitute, env, specs).value
    ensures
      var value := Evaluate(substitute, env, specs).value[name];
      match LastNaming(specs, name)
      case None => name in env && value == env[name]
      case Some(i) =>
        && i < |specs| && name in specs[i].vars
        && Evaluate(substitute, env, specs[..i]).Some?
        && substitute(specs[i].vars[name], Evaluate(substitute, env, specs[..i]).value) == Some(value)
  {
    if specs == [] || name in specs[|specs| - 1].vars {
    } else {
      var before := specs[..|specs| - 1];
      ValueComesFrom(substitute, env, before, name);
      var from := LastNaming(before, name);
      assert from.Some? ==> before[..from.value] == specs[..from.value];
    }
  }
}
