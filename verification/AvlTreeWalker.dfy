/** In-order iteration over the tree with an explicit stack (`avl.rs`). */
module AvlTreeIteration {
  import opened Wrappers
  import opened DirectoryRecords
  import opened DirectoryStorage
  import opened KeyOrder
  import opened SortedItems
  import opened AvlTrees
  import opened AvlTreeOperations

  /** How much of a node on the stack is done: nothing, its left side, the node itself, its right side. */
  datatype Visited = VisitedNone | VisitedLeft | VisitedOwn | VisitedRight

  type Stack = seq<(Ptr, Visited)>

  /** The entries that a node on the stack still has to yield once everything above it is done. */
  function Pending(state: Visited, t: Tree): seq<Item>
    requires t.Node?
  {
    match state
    case VisitedNone => Items(t)
    case VisitedLeft => [ItemOf(t)] + Items(t.right)
    case VisitedOwn => Items(t.right)
    case VisitedRight => []
  }

  /** The stack refers to stored subtrees. */
  ghost predicate Refers(nodes: map<nat, AvlNode>, stack: Stack, subtrees: seq<Tree>) {
    && |subtrees| == |stack|
    && forall i :: 0 <= i < |stack| ==>
         subtrees[i].Node? && subtrees[i].ptr == stack[i].0 && Stored(nodes, subtrees[i])
  }

  ghost predicate AllNodes(subtrees: seq<Tree>) {
    forall i :: 0 <= i < |subtrees| ==> subtrees[i].Node?
  }

  ghost function PendingAll(stack: Stack, subtrees: seq<Tree>): seq<Item>
    requires |subtrees| == |stack| && AllNodes(subtrees)
  {
    if stack == [] then []
    else
      var n := |stack| - 1;
      Pending(stack[n].1, subtrees[n]) + PendingAll(stack[..n], subtrees[..n])
  }

  function WeightOf(state: Visited, t: Tree): nat
    requires t.Node?
  {
    match state
    case VisitedNone => 4 * Size(t)
    case VisitedLeft => 4 * Size(t.right) + 3
    case VisitedOwn => 4 * Size(t.right) + 2
    case VisitedRight => 1
  }

  /** Decreases with every step of the walker. */
  ghost function Weight(stack: Stack, subtrees: seq<Tree>): nat
    requires |subtrees| == |stack| && AllNodes(subtrees)
  {
    if stack == [] then 0
    else
      var n := |stack| - 1;
      WeightOf(stack[n].1, subtrees[n]) + Weight(stack[..n], subtrees[..n])
  }

  lemma {:induction false} Pushed(stack: Stack, subtrees: seq<Tree>, state: Visited, t: Tree)
    requires |subtrees| == |stack| && AllNodes(subtrees) && t.Node?
    ensures AllNodes(subtrees + [t])
    ensures PendingAll(stack + [(t.ptr, state)], subtrees + [t]) == Pending(state, t) + PendingAll(stack, subtrees)
    ensures Weight(stack + [(t.ptr, state)], subtrees + [t]) == WeightOf(state, t) + Weight(stack, subtrees)
  {
    var n := |stack|;
    assert (stack + [(t.ptr, state)])[..n] == stack && (subtrees + [t])[..n] == subtrees;
  }

  /** Splitting a node's work into the part above it on the stack and the rest. */
  lemma StepKeeps(state: Visited, t: Tree, rest: seq<Item>)
    requires t.Node?
    ensures state == VisitedNone ==> Pending(state, t) + rest == Items(t.left) + (Pending(VisitedLeft, t) + rest)
    ensures state == VisitedOwn ==> Pending(state, t) + rest == Items(t.right) + (Pending(VisitedRight, t) + rest)
    ensures state == VisitedRight ==> Pending(state, t) + rest == rest
    ensures t.left.Leaf? ==> Items(t.left) + (Pending(VisitedLeft, t) + rest) == Pending(VisitedLeft, t) + rest
    ensures t.right.Leaf? ==> Items(t.right) + (Pending(VisitedRight, t) + rest) == Pending(VisitedRight, t) + rest
    ensures t.left.Node? ==> Items(t.left) == Pending(VisitedNone, t.left)
    ensures t.right.Node? ==> Items(t.right) == Pending(VisitedNone, t.right)
    ensures WeightOf(VisitedLeft, t) + (if t.left.Node? then WeightOf(VisitedNone, t.left) else 0)
          < WeightOf(VisitedNone, t)
    ensures WeightOf(VisitedRight, t) + (if t.right.Node? then WeightOf(VisitedNone, t.right) else 0)
          < WeightOf(VisitedOwn, t)
    ensures WeightOf(VisitedRight, t) > 0
  {
    assert Items(t) == Items(t.left) + ([ItemOf(t)] + Items(t.right));
  }

  class AvlTreeWalker {
    const tree: AvlTree
    var stack: Stack
    ghost var subtrees: seq<Tree>

    ghost predicate Valid()
      reads this, tree, tree.storage, tree.storage.stream`data
    {
      tree.Valid() && Refers(tree.storage.nodes, stack, subtrees)
    }

    /** What the walker will still yield, in order. */
    ghost function Remaining(): seq<Item>
      requires |subtrees| == |stack| && AllNodes(subtrees)
      reads this
    {
      PendingAll(stack, subtrees)
    }

    constructor (tree: AvlTree)
      requires tree.Valid()
      modifies tree.storage.stream`position
      ensures Valid() && this.tree == tree
      ensures Remaining() == Items(tree.tree)
    {
      this.tree := tree;
      this.stack := [];
      this.subtrees := [];
      new;
      hide DirectoryEntryStorage.Valid, Sorted, Avl, Unshared;
      var current := tree.storage.Root();
      if current.Some? {
        Push(current.value, VisitedNone, tree.tree);
      }
    }

    method Advance()
      requires Valid() && stack != [] && stack[|stack| - 1].1 != VisitedLeft
      modifies this, tree.storage.stream`position
      ensures Valid() && Remaining() == old(Remaining())
      ensures Weight(stack, subtrees) < old(Weight(stack, subtrees))
    {
      hide DirectoryEntryStorage.Valid, Consistent, Items, Pending, WeightOf;
      var n := |stack| - 1;
      var (ptr, state) := stack[n];
      ghost var t := subtrees[n];
      StepKeeps(state, t, PendingAll(stack[..n], subtrees[..n]));
      stack, subtrees := stack[..n], subtrees[..n];
      var node := tree.storage.LookUp(ptr);
      match state {
        case VisitedNone =>
          Push(ptr, VisitedLeft, t);
          if node.left.Some? {
            Push(node.left.value, VisitedNone, t.left);
          }
        case VisitedOwn =>
          Push(ptr, VisitedRight, t);
          if node.right.Some? {
            Push(node.right.value, VisitedNone, t.right);
          }
        case _ =>
      }
    }

    method Push(ptr: Ptr, state: Visited, ghost t: Tree)
      requires Valid() && t.Node? && t.ptr == ptr && Stored(tree.storage.nodes, t)
      modifies this
      ensures Valid()
      ensures Remaining() == Pending(state, t) + old(Remaining())
      ensures Weight(stack, subtrees) == WeightOf(state, t) + old(Weight(stack, subtrees))
    {
      hide DirectoryEntryStorage.Valid, Consistent;
      Pushed(stack, subtrees, state, t);
      stack, subtrees := stack + [(ptr, state)], subtrees + [t];
    }

    /** Yields the next entry in key order, or `None` once all have been yielded. */
    method Next() returns (r: Option<(Key, EntryData)>)
      requires Valid()
      modifies this, tree.storage.stream`position
      ensures Valid()
      ensures r.None? <==> old(Remaining()) == []
      ensures r.None? ==> Remaining() == []
      ensures r.Some? ==> old(Remaining()) == [Item(old(Remaining())[0].ptr, r.value.0, r.value.1)] + Remaining()
    {
      hide DirectoryEntryStorage.Valid, Consistent;
      while true
        invariant Valid() && Remaining() == old(Remaining())
        decreases Weight(stack, subtrees)
      {
        if stack == [] {
          return None;
        }
        if stack[|stack| - 1].1 == VisitedLeft {
          break;
        }
        Advance();
      }
      r := Yield();
    }

    /** Yields the node on top of the stack, whose left side is done. */
    method Yield() returns (r: Option<(Key, EntryData)>)
      requires Valid() && stack != [] && stack[|stack| - 1].1 == VisitedLeft
      modifies this, tree.storage.stream`position
      ensures Valid() && r.Some?
      ensures old(Remaining()) != []
      ensures old(Remaining()) == [Item(old(Remaining())[0].ptr, r.value.0, r.value.1)] + Remaining()
    {
      hide DirectoryEntryStorage.Valid, Consistent;
      var n := |stack| - 1;
      var top := stack[n].0;
      ghost var t := subtrees[n];
      ghost var rest := PendingAll(stack[..n], subtrees[..n]);
      assert Remaining() == [ItemOf(t)] + (Items(t.right) + rest) && Remaining()[0] == ItemOf(t);
      stack, subtrees := stack[..n], subtrees[..n];
      Push(top, VisitedOwn, t);
      var node := tree.storage.LookUp(top);
      return Some((node.key, node.value));
    }
  }

  /** The names and data of the entries. */
  function Listing(s: seq<Item>): (r: seq<(Key, EntryData)>)
    ensures |r| == |s|
    ensures forall i :: 0 <= i < |s| ==> r[i] == (s[i].key, s[i].value)
  {
    if s == [] then [] else [(s[0].key, s[0].value)] + Listing(s[1..])
  }

  lemma NothingListed(entries: seq<(Key, EntryData)>)
    ensures entries + Listing([]) == entries
  {
  }

  lemma {:induction false} ListingStep(entries: seq<(Key, EntryData)>, x: Item, rest: seq<Item>)
    ensures entries + Listing([x] + rest) == entries + [(x.key, x.value)] + Listing(rest)
  {
    assert ([x] + rest)[1..] == rest;
  }

  /** The names come in dictionary order of their bytes. */
  ghost predicate InNameOrder(entries: seq<(Key, EntryData)>) {
    forall i, j :: 0 <= i < j < |entries| ==> ComesBefore(entries[i].0, entries[j].0)
  }

  lemma {:induction false} ListingInNameOrder(s: seq<Item>)
    requires Sorted(s)
    ensures InNameOrder(Listing(s))
  {
    hide ComesBefore, Lt;
    forall i, j | 0 <= i < j < |s| ensures ComesBefore(Listing(s)[i].0, Listing(s)[j].0) {
      LtIsDictionaryOrder(s[i].key, s[j].key);
    }
  }

  /** `into_stream` read to its end: every entry exactly once, in strictly increasing key order. */
  method ReadOrdered(tree: AvlTree) returns (entries: seq<(Key, EntryData)>)
    requires tree.Valid()
    modifies tree.storage.stream`position
    ensures entries == Listing(Items(tree.tree)) && Sorted(Items(tree.tree)) && InNameOrder(entries)
  {
    assert Sorted(Items(tree.tree));
    ListingInNameOrder(Items(tree.tree));
    hide InNameOrder, Consistent, DirectoryEntryStorage.Valid, Sorted, Listing, Items;
    var walker := new AvlTreeWalker(tree);
    entries := [];
    while true
      invariant walker.Valid() && fresh(walker) && walker.tree == tree
      invariant entries + Listing(walker.Remaining()) == Listing(Items(tree.tree))
      decreases |walker.Remaining()|
    {
      ghost var rest := walker.Remaining();
      var next := walker.Next();
      if next.None? {
        NothingListed(entries);
        return;
      }
      ListingStep(entries, rest[0], walker.Remaining());
      entries := entries + [next.value];
    }
  }
}
