/** The limit on concurrent layer builds (`preparer.rs`, `LayerBuilds`). */
module LayerBuilding {
  import opened Wrappers
  import opened ContainerSpecs
  import opened JobPreparation
  import opened PreparerStates
  import opened Sequences

  class LayerBuilds {
    const maxPending: nat
    var pending: nat
    var waiting: seq<LayerSpec>

    /** The builds handed to the outside world so far, in order. */
    var started: seq<LayerSpec>

    /** How many builds have been reported as finished. */
    ghost var finished: nat

    ghost predicate Valid()
      reads this
    {
      && 0 < maxPending && pending <= maxPending
      && (waiting != [] ==> pending == maxPending)
      && |started| == pending + finished
      && NoDuplicates(started + waiting)
    }

    /** Every build asked for, in the order of asking. */
    ghost function Requested(): seq<LayerSpec>
      reads this
    {
      started + waiting
    }

    constructor (maxPending: nat)
      requires maxPending > 0
      ensures Valid() && this.maxPending == maxPending
      ensures started == [] && waiting == [] && finished == 0
    {
      this.maxPending := maxPending;
      pending, waiting, started, finished := 0, [], [], 0;
    }

    method Push(layer: LayerSpec)
      requires Valid() && layer !in Requested()
      modifies this
      ensures Valid() && finished == old(finished)
      ensures Requested() == old(Requested()) + [layer]
      ensures started == if old(pending) < maxPending then old(started) + [layer] else old(started)
    {
      AppendDistinct(Requested(), layer);
      if pending < maxPending {
        pending := pending + 1;
        started := started + [layer];
        assert started + waiting == old(Requested()) + [layer];
      } else {
        waiting := waiting + [layer];
        assert started + waiting == old(Requested()) + [layer];
      }
    }

    /** A build has finished: the longest-waiting one takes its place, or the count drops. */
    method Pop()
      requires Valid() && finished < |started|
      modifies this
      ensures Valid() && finished == old(finished) + 1
      ensures Requested() == old(Requested())
      ensures started == if old(waiting) != [] then old(started) + [old(waiting)[0]] else old(started)
      ensures waiting == if old(waiting) != [] then old(waiting)[1..] else []
    {
      finished := finished + 1;
      if waiting != [] {
        var layer := waiting[0];
        waiting := waiting[1..];
        started := started + [layer];
        assert started + waiting == old(Requested());
      } else {
        assert pending >= 1;
        pending := pending - 1;
        assert pending < maxPending;
      }
    }
  }

  // ----- The builds and the preparer's layer table

  function GotSet(layers: Layers): set<LayerSpec> {
    set l | l in layers && layers[l].GotLayer?
  }

  /** Exactly the layers in the table have been asked for, and exactly those with a result are finished. */
  ghost predicate BuildsMatch(layers: Layers, started: seq<LayerSpec>, waiting: seq<LayerSpec>, finished: nat) {
    && (forall l :: l in layers <==> l in started + waiting)
    && (forall l :: l in layers && layers[l].GotLayer? ==> l in started)
    && finished == |GotSet(layers)|
  }

  lemma {:induction false} DistinctCount(s: seq<LayerSpec>)
    requires NoDuplicates(s)
    ensures |(set l | l in s)| == |s|
  {
    if s == [] {
    } else {
      var n := |s| - 1;
      DistinctCount(s[..n]);
      assert (set l | l in s) == (set l | l in s[..n]) + {s[n]};
    }
  }

  lemma MoreElements(a: set<LayerSpec>, b: set<LayerSpec>)
    requires a <= b
    ensures |a| <= |b| && (a != b ==> |a| < |b|)
  {
    var rest := b - a;
    assert b == a + rest;
  }

  /** A build in flight is one more started than finished. */
  lemma InFlightCounts(layers: Layers, started: seq<LayerSpec>, waiting: seq<LayerSpec>, finished: nat, l: LayerSpec)
    requires BuildsMatch(layers, started, waiting, finished) && NoDuplicates(started + waiting)
    requires l in started && l in layers && layers[l].GettingLayer?
    ensures finished < |started|
  {
    PrefixDistinct(started, started + waiting);
    DistinctCount(started);
    var all := set x | x in started;
    assert l in all && l !in GotSet(layers);
    MoreElements(GotSet(layers), all);
  }

  /** The layers without a result are the builds in flight and the queue. */
  lemma GettingCount(layers: Layers, started: seq<LayerSpec>, waiting: seq<LayerSpec>, finished: nat)
    requires BuildsMatch(layers, started, waiting, finished) && NoDuplicates(started + waiting)
    ensures |set l | l in layers && layers[l].GettingLayer?| == |started| - finished + |waiting|
  {
    var getting := set l | l in layers && layers[l].GettingLayer?;
    DistinctCount(started + waiting);
    assert (set l | l in started + waiting) == getting + GotSet(layers);
    assert getting !! GotSet(layers);
  }

  lemma NotRequested(layers: Layers, started: seq<LayerSpec>, waiting: seq<LayerSpec>, finished: nat, l: LayerSpec)
    requires BuildsMatch(layers, started, waiting, finished) && l !in layers
    ensures l !in started + waiting
  {
  }

  lemma BuildsAfterAdd(layers: Layers, started: seq<LayerSpec>, waiting: seq<LayerSpec>, finished: nat,
                       started': seq<LayerSpec>, waiting': seq<LayerSpec>, l: LayerSpec, w: Waiter)
    requires BuildsMatch(layers, started, waiting, finished) && (l in layers ==> layers[l].GettingLayer?)
    requires if l in layers then started' == started && waiting' == waiting
             else started <= started' && started' + waiting' == started + waiting + [l]
    ensures BuildsMatch(AddWaiter(layers, l, w), started', waiting', finished)
  {
    assert GotSet(AddWaiter(layers, l, w)) == GotSet(layers);
    assert forall x :: x in started ==> x in started';
    assert forall x :: x in started + waiting + [l] <==> x in started + waiting || x == l;
  }

  lemma BuildsAfterResult(layers: Layers, started: seq<LayerSpec>, waiting: seq<LayerSpec>, finished: nat,
                          started': seq<LayerSpec>, waiting': seq<LayerSpec>, l: LayerSpec, r: Result<Artifact, Error>)
    requires BuildsMatch(layers, started, waiting, finished)
    requires l in layers && layers[l].GettingLayer? && l in started
    requires started' + waiting' == started + waiting && started <= started'
    ensures BuildsMatch(layers[l := GotLayer(r)], started', waiting', finished + 1)
  {
    assert GotSet(layers[l := GotLayer(r)]) == GotSet(layers) + {l};
    assert forall x :: x in started ==> x in started';
  }
}
