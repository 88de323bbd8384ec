/**
 Which chains of containers are refused, one field at a time and without a set of visited
 names: a field's walk may end, may meet a name that is no container, or may go on for ever.
 Collapsing fails exactly when the walk of some field that is still wanted does not end.
 */
module ContainerChains {
  import opened Wrappers
  import opened ContainerSpecs
  import opened CollapsedJobSpecs

  predicate Wants(parent: Option<ContainerParent>, f: ContainerUse) {
    parent.Some? && parent.value.Container? && f in parent.value.container.uses
  }

  /** The reference asks a container for field `f`, and that container leaves the field open. */
  predicate Onward(containers: Containers, parent: Option<ContainerParent>, f: ContainerUse) {
    && Wants(parent, f)
    && parent.value.container.name in containers
    && !Sets(containers[parent.value.container.name], f)
  }

  /** The reference that the walk for `f` is at after `n` steps; none once it has ended. */
  function After(containers: Containers, parent: Option<ContainerParent>, f: ContainerUse,
                 n: nat): Option<ContainerParent>
    decreases n
  {
    if n == 0 then parent
    else if !Onward(containers, parent, f) then None
    else After(containers, containers[parent.value.container.name].parent, f, n - 1)
  }

  ghost predicate NeverEnds(containers: Containers, parent: Option<ContainerParent>, f: ContainerUse) {
    forall n: nat :: Onward(containers, After(containers, parent, f, n), f)
  }

  predicate MissesAt(containers: Containers, parent: Option<ContainerParent>, f: ContainerUse, n: nat, name: string) {
    var at := After(containers, parent, f, n);
    Wants(at, f) && at.value.container.name == name && name !in containers
  }

  ghost predicate Misses(containers: Containers, parent: Option<ContainerParent>, f: ContainerUse, name: string) {
    exists n: nat :: MissesAt(containers, parent, f, n, name)
  }

  ghost predicate Ends(containers: Containers, parent: Option<ContainerParent>, f: ContainerUse) {
    !NeverEnds(containers, parent, f) && forall name :: !Misses(containers, parent, f, name)
  }

  lemma {:induction false} AfterSum(containers: Containers, parent: Option<ContainerParent>, f: ContainerUse, i: nat,
                                    k: nat)
    ensures After(containers, parent, f, i + k) == After(containers, After(containers, parent, f, i), f, k)
    decreases i
  {
    if i == 0 {
    } else if Onward(containers, parent, f) {
      AfterSum(containers, containers[parent.value.container.name].parent, f, i - 1, k);
    } else if k > 0 {
      assert !Onward(containers, None, f);
    }
  }

  /** Two fields whose walks both go on are at the same reference. */
  lemma {:induction false} SameTrail(containers: Containers, parent: Option<ContainerParent>, f: ContainerUse,
                                     g: ContainerUse, n: nat)
    requires After(containers, parent, f, n).Some? && After(containers, parent, g, n).Some?
    ensures After(containers, parent, f, n) == After(containers, parent, g, n)
    decreases n
  {
    if n == 0 {
    } else {
      SameTrail(containers, containers[parent.value.container.name].parent, f, g, n - 1);
    }
  }

  /** A walk that asks the same container twice goes round for ever. */
  lemma {:induction false} RevisitNeverEnds(containers: Containers, parent: Option<ContainerParent>, f: ContainerUse,
                                            i: nat, j: nat, n: nat)
    requires i < j
    requires Onward(containers, After(containers, parent, f, i), f) && Wants(After(containers, parent, f, j), f)
    requires After(containers, parent, f, i).value.container.name
          == After(containers, parent, f, j).value.container.name
    ensures Onward(containers, After(containers, parent, f, n), f)
    decreases n
  {
    if n > j {
      AfterSum(containers, parent, f, i, n - j);
      AfterSum(containers, parent, f, j, n - j);
      RevisitNeverEnds(containers, parent, f, i, j, i + (n - j));
    } else if n < j {
      AfterSum(containers, parent, f, n, j - n);
    }
  }

  /** A walk that is found to loop asks a container it has asked before, or one of `seen`. */
  lemma {:induction false} LoopIsRevisit(containers: Containers, parent: Option<ContainerParent>,
                                         mask: set<ContainerUse>,
                                         seen: set<string>) returns (f: ContainerUse, i: nat, j: nat)
    requires FateOf(containers, parent, mask, seen).Loops?
    ensures f in mask && i <= j && Wants(After(containers, parent, f, j), f)
    ensures
      var name := After(containers, parent, f, j).value.container.name;
      && name in containers
      && (name in seen
          || (i < j && Onward(containers, After(containers, parent, f, i), f)
              && After(containers, parent, f, i).value.container.name == name))
    decreases containers.Keys - seen
  {
    var ref := parent.value.container;
    var wanted := mask * ref.uses;
    if ref.name in seen {
      f :| f in wanted;
      i, j := 0, 0;
    } else {
      var next := containers[ref.name];
      f, i, j := LoopIsRevisit(containers, next.parent, StillWanted(next, wanted), seen + {ref.name});
      i, j := i + 1, j + 1;
      if After(containers, parent, f, j).value.container.name == ref.name {
        i := 0;
      }
    }
  }

  lemma {:induction false} MissingIsMissed(containers: Containers, parent: Option<ContainerParent>,
                                           mask: set<ContainerUse>,
                                           seen: set<string>) returns (f: ContainerUse, n: nat)
    requires FateOf(containers, parent, mask, seen).Missing?
    ensures f in mask && MissesAt(containers, parent, f, n, FateOf(containers, parent, mask, seen).name)
    decreases containers.Keys - seen
  {
    var ref := parent.value.container;
    var wanted := mask * ref.uses;
    if ref.name !in containers {
      f :| f in wanted;
      n := 0;
    } else {
      var next := containers[ref.name];
      f, n := MissingIsMissed(containers, next.parent, StillWanted(next, wanted), seen + {ref.name});
      n := n + 1;
    }
  }

  /** When the common walk ends well, so does the walk of every field wanted, within `steps`. */
  lemma {:induction false} DoneEnds(containers: Containers, parent: Option<ContainerParent>, mask: set<ContainerUse>,
                                    seen: set<string>, f: ContainerUse) returns (steps: nat)
    requires FateOf(containers, parent, mask, seen).Done? && f in mask
    ensures !Onward(containers, After(containers, parent, f, steps), f)
    ensures forall name, n: nat :: !MissesAt(containers, parent, f, n, name)
    decreases containers.Keys - seen
  {
    if !Onward(containers, parent, f) {
      steps := 0;
      assert parent.Some? && parent.value.Container? ==>
          f !in parent.value.container.uses || f in mask * parent.value.container.uses;
    } else {
      var ref := parent.value.container;
      assert f in mask * ref.uses;
      var next := containers[ref.name];
      steps := DoneEnds(containers, next.parent, StillWanted(next, mask * ref.uses), seen + {ref.name}, f);
      steps := steps + 1;
      forall name, n: nat ensures !MissesAt(containers, parent, f, n, name) {
        if n > 0 {
          assert !MissesAt(containers, next.parent, f, n - 1, name);
        }
      }
    }
  }

  lemma NotBoth(containers: Containers, parent: Option<ContainerParent>, f: ContainerUse, g: ContainerUse, name: string)
    requires NeverEnds(containers, parent, f)
    ensures !Misses(containers, parent, g, name)
  {
    forall n: nat ensures !MissesAt(containers, parent, g, n, name) {
      assert Onward(containers, After(containers, parent, f, n), f);
      if Wants(After(containers, parent, g, n), g) {
        SameTrail(containers, parent, f, g, n);
      }
    }
  }

  lemma MissedOnce(containers: Containers, parent: Option<ContainerParent>, f: ContainerUse, n: nat, x: string,
                   g: ContainerUse, m: nat, y: string)
    requires MissesAt(containers, parent, f, n, x) && MissesAt(containers, parent, g, m, y) && n <= m
    ensures x == y
  {
    if n < m {
      AfterSum(containers, parent, g, n, m - n);
    }
    SameTrail(containers, parent, f, g, n);
  }

  /**
   Collapsing succeeds exactly when the walk of every field the job leaves open ends; it reports
   a loop exactly when the walk of some open field never ends; and it reports a missing container
   exactly when the walk of some open field comes to that name.
   */
  lemma CollapseFails(job: ClientJobSpec, containers: Containers)
    ensures
      var s := job.container;
      var open := StillWanted(s, ALL_CONTAINER_USES);
      && (Collapse(job, containers).Ok? <==> forall f :: f in open ==> Ends(containers, s.parent, f))
      && ((exists name :: Collapse(job, containers) == Err(ParentLoop(name)))
          <==> exists f :: f in open && NeverEnds(containers, s.parent, f))
      && (forall name :: Collapse(job, containers) == Err(ParentNotFound(name))
                         <==> exists f :: f in open && Misses(containers, s.parent, f, name))
  {
    var s := job.container;
    var open := StillWanted(s, ALL_CONTAINER_USES);
    match FateOf(containers, s.parent, open, {}) {
      case Done =>
        forall f | f in open ensures Ends(containers, s.parent, f) {
          var steps := DoneEnds(containers, s.parent, open, {}, f);
        }
      case Missing(x) =>
        var g, m := MissingIsMissed(containers, s.parent, open, {});
        assert Misses(containers, s.parent, g, x);
        forall f | f in open ensures !NeverEnds(containers, s.parent, f) {
          if NeverEnds(containers, s.parent, f) {
            NotBoth(containers, s.parent, f, g, x);
          }
        }
        forall f, name | f in open && Misses(containers, s.parent, f, name) ensures name == x {
          var n: nat :| MissesAt(containers, s.parent, f, n, name);
          if n <= m {
            MissedOnce(containers, s.parent, f, n, name, g, m, x);
          } else {
            MissedOnce(containers, s.parent, g, m, x, f, n, name);
          }
        }
        assert Collapse(job, containers) == Err(ParentNotFound(x));
      case Loops(x) =>
        var f, i, j := LoopIsRevisit(containers, s.parent, open, {});
        forall n: nat ensures Onward(containers, After(containers, s.parent, f, n), f) {
          RevisitNeverEnds(containers, s.parent, f, i, j, n);
        }
        assert NeverEnds(containers, s.parent, f);
        forall g, name | g in open ensures !Misses(containers, s.parent, g, name) {
          NotBoth(containers, s.parent, f, g, name);
        }
        assert Collapse(job, containers) == Err(ParentLoop(x));
    }
  }
}
