/**
 The insert-only AVL tree over its byte storage (`avl.rs`). Every operation reads copies
 of nodes and writes them back; `tree` is the tree that the store then holds.
 */
module AvlTreeOperations {
  import opened Wrappers
  import opened Integers
  import opened DirectoryRecords
  import opened ByteStreams
  import opened DirectoryStorage
  import opened KeyOrder
  import opened SortedItems
  import opened AvlTrees

  /** The store holds exactly the search tree `t`, balanced and unshared, under `root`. */
  ghost predicate Consistent(root: Option<Ptr>, nodes: map<nat, AvlNode>, t: Tree) {
    && root == Root(t)
    && Stored(nodes, t) && Unshared(t) && Avl(t)
    && Sorted(Items(t))
    && (forall p :: p in nodes ==> p in Ptrs(t))
  }

  /** Links and heights at `ptrs` may have changed; no key, no value and no other node has. */
  ghost predicate Relinked(nodes: map<nat, AvlNode>, nodes': map<nat, AvlNode>, ptrs: set<Ptr>) {
    && nodes'.Keys == nodes.Keys
    && SameOutside(nodes, nodes', ptrs)
    && forall p :: p in nodes ==> nodes'[p].key == nodes[p].key && nodes'[p].value == nodes[p].value
  }

  /** Rust's `u32 as i32`. */
  function AsI32(n: u32): int {
    if n < 0x8000_0000 then n else n - 0x1_0000_0000
  }

  ghost function HeightAt(nodes: map<nat, AvlNode>, p: Option<Ptr>): nat
    requires p.Some? ==> p.value in nodes
  {
    if p.None? then 0 else nodes[p.value].height
  }

  // ----- Writing a node back

  /** `t` is in the store except that its root node's links and height need not be. */
  ghost predicate StoredBelow(nodes: map<nat, AvlNode>, t: Tree) {
    && t.Node? && t.ptr in nodes && nodes[t.ptr].key == t.key && nodes[t.ptr].value == t.value
    && Stored(nodes, t.left) && Stored(nodes, t.right)
  }

  lemma {:induction false} WriteRoot(nodes: map<nat, AvlNode>, t: Tree, n: AvlNode)
    requires StoredBelow(nodes, t) && Unshared(t) && Holds(n, t)
    ensures Stored(nodes[t.ptr := n], t)
    ensures Relinked(nodes, nodes[t.ptr := n], {t.ptr})
  {
    StoredFrame(nodes, nodes[t.ptr := n], t.left, {t.ptr});
    StoredFrame(nodes, nodes[t.ptr := n], t.right, {t.ptr});
  }

  /** The two trees that a left rotation writes, lower one first. */
  lemma {:induction false} RotateLeftUnshared(t: Tree)
    requires t.Node? && t.right.Node? && Unshared(t)
    ensures
      var down := t.(right := t.right.left);
      var up := t.right.(left := Fix(down));
      && Unshared(down) && Unshared(up)
      && t.ptr !in Ptrs(t.right.right) && t.right.ptr != t.ptr && t.right.ptr !in Ptrs(t.right.left)
      && {t.ptr} <= Ptrs(t) && {t.right.ptr} <= Ptrs(t)
      && RotateLeft(t) == Fix(up)
  {
    RotateLeftEntries(t);
  }

  lemma {:induction false} RotateRightUnshared(t: Tree)
    requires t.Node? && t.left.Node? && Unshared(t)
    ensures
      var down := t.(left := t.left.right);
      var up := t.left.(right := Fix(down));
      && Unshared(down) && Unshared(up)
      && t.ptr !in Ptrs(t.left.left) && t.left.ptr != t.ptr && t.left.ptr !in Ptrs(t.left.right)
      && {t.ptr} <= Ptrs(t) && {t.left.ptr} <= Ptrs(t)
      && RotateRight(t) == Fix(up)
  {
    RotateRightEntries(t);
  }

  lemma RelinkedTwice(nodes: map<nat, AvlNode>, nodes1: map<nat, AvlNode>, nodes2: map<nat, AvlNode>,
                      p: set<Ptr>, q: set<Ptr>, all: set<Ptr>)
    requires Relinked(nodes, nodes1, p) && Relinked(nodes1, nodes2, q) && p <= all && q <= all
    ensures Relinked(nodes, nodes2, all)
  {
  }

  /** The tree's side of one retracing step: where the new child hangs and who its parent still names. */
  ghost predicate Hanging(nodes: map<nat, AvlNode>, c: Path, t: Tree, moved: Option<(Ptr, Ptr)>) {
    && t.Node? && Stored(nodes, t) && Unshared(t) && Avl(t)
    && PathUnshared(c, Ptrs(t))
    && PathStored(nodes, c, if moved.None? then Root(t) else Some(moved.value.0))
    && (moved.Some? ==> Root(t) == Some(moved.value.1) && moved.value.0 in Ptrs(t))
  }

  lemma WriteChild(nodes: map<nat, AvlNode>, c: Path, t: Tree, oldChild: Ptr, newChild: Ptr, n: AvlNode)
    requires !c.Top? && Hanging(nodes, c, t, Some((oldChild, newChild)))
    requires n == if nodes[c.ptr].left == Some(oldChild) then nodes[c.ptr].(left := Some(newChild))
                  else nodes[c.ptr].(right := Some(newChild))
    ensures Hanging(nodes[c.ptr := n], c, t, None)
    ensures Relinked(nodes, nodes[c.ptr := n], {c.ptr})
  {
    var nodes' := nodes[c.ptr := n];
    StoredFrame(nodes, nodes', t, {c.ptr});
    StoredFrame(nodes, nodes', c.other, {c.ptr});
    var around := {c.ptr} + Ptrs(t) + Ptrs(c.other);
    PathStoredFrame(nodes, nodes', c.up, Some(c.ptr), around);
    assert HoldsPath(n, c, Root(t)) by {
      assert Root(c.other) != Some(oldChild);
    }
  }

  lemma {:induction false} RetraceHangs(nodes: map<nat, AvlNode>, nodes': map<nat, AvlNode>, c: Path, u: Tree)
    requires !c.Top? && NearlyAvl(u) && u.ptr == c.ptr
    requires Unshared(u) && PathUnshared(c.up, Ptrs(u)) && PathStored(nodes, c.up, Some(c.ptr))
    requires Relinked(nodes, nodes', Ptrs(u))
    ensures Unshared(Retrace(u)) && Avl(Retrace(u)) && PathUnshared(c.up, Ptrs(Retrace(u)))
    ensures PathStored(nodes', c.up, Some(c.ptr)) && c.ptr in Ptrs(Retrace(u)) && Retrace(u).Node?
  {
    RetraceEntries(u);
    RetraceBalances(u);
    PathStoredFrame(nodes, nodes', c.up, Some(c.ptr), Ptrs(u));
  }

  /** Plugged in, `t` gives a tree with these entries in order, held by these pointers. */
  ghost predicate Rearranged(c: Path, t: Tree, items: seq<Item>, ptrs: set<Ptr>) {
    Before(c) + Items(t) + After(c) == items && Ptrs(Plug(c, t)) == ptrs
  }

  lemma {:induction false} RearrangedStep(c: Path, t: Tree, h: nat, items: seq<Item>, ptrs: set<Ptr>)
    requires !c.Top? && NearlyAvl(Refill(c, t)) && Rearranged(c, t, items, ptrs)
    requires Avl(t) && Grown(c, t, h)
    ensures Rearranged(c.up, Retrace(Refill(c, t)), items, ptrs)
    ensures Grown(c.up, Retrace(Refill(c, t)), c.height)
    ensures Ptrs(Refill(c, t)) <= ptrs
  {
    var u := Retrace(Refill(c, t));
    RetraceEntries(Refill(c, t));
    PlugItems(c, t);
    PlugItems(c.up, Refill(c, t));
    PlugSamePtrs(c.up, Refill(c, t), u);
    PlugPtrs(c.up, u);
    RefillNearlyAvl(c, t, h);
  }

  /** The root pointer in the header while the pointers `rest` are still to be retraced. */
  function RecordedRoot(rest: seq<Ptr>, t: Tree, moved: Option<(Ptr, Ptr)>): Option<Ptr> {
    if rest != [] then Some(rest[0]) else if moved.Some? then Some(moved.value.0) else Root(t)
  }

  lemma {:induction false} PlugRoot(c: Path, t: Tree)
    ensures Root(Plug(c, t)) == RecordedRoot(Pointers(c), t, None)
  {
    if c.Top? {
    } else {
      PlugRoot(c.up, Refill(c, t));
    }
  }

  /** The state of `do_retracing` with the pointers `rest` still to be popped. */
  ghost predicate Turning(root: Option<Ptr>, nodes: map<nat, AvlNode>, rest: seq<Ptr>, moved: Option<(Ptr, Ptr)>,
                          c: Path, t: Tree, h: nat, items: seq<Item>, ptrs: set<Ptr>) {
    && Pointers(c) == rest && root == RecordedRoot(rest, t, moved)
    && Hanging(nodes, c, t, moved) && Grown(c, t, h)
    && Rearranged(c, t, items, ptrs)
  }

  /** Before the first turn. */
  lemma {:induction false} StartTurning(nodes: map<nat, AvlNode>, entries: seq<Record>, c: Path, t: Tree, h: nat,
                                        ptrs: set<Ptr>)
    requires Hanging(nodes, c, t, None) && Grown(c, t, h)
    ensures Turning(Root(Plug(c, t)), nodes, Pointers(c), None, c, t, h, Before(c) + Items(t) + After(c),
                    Ptrs(Plug(c, t)))
    ensures Relinked(nodes, nodes, ptrs) && SameListing(entries, entries)
  {
    PlugRoot(c, t);
  }

  /** After the last turn the whole path has been walked, and the tree is complete but for its root. */
  lemma {:induction false} EndTurning(root: Option<Ptr>, nodes: map<nat, AvlNode>, moved: Option<(Ptr, Ptr)>,
                                      c: Path, t: Tree, h: nat, items: seq<Item>, ptrs: set<Ptr>)
    requires Turning(root, nodes, [], moved, c, t, h, items, ptrs)
    ensures (if moved.Some? then Some(moved.value.1) else root) == Root(t)
    ensures Stored(nodes, t) && Unshared(t) && Avl(t) && Items(t) == items && Ptrs(t) == ptrs
  {
  }

  lemma {:induction false} PlugSamePtrs(c: Path, t: Tree, t': Tree)
    requires Ptrs(t) == Ptrs(t')
    ensures Ptrs(Plug(c, t)) == Ptrs(Plug(c, t'))
  {
    if c.Top? {
    } else {
      RefillPtrs(c, t);
      RefillPtrs(c, t');
      PlugSamePtrs(c.up, Refill(c, t), Refill(c, t'));
    }
  }

  /** The path's recorded heights date from when the hole held `h`; now it holds `h` or one more. */
  ghost predicate Grown(c: Path, t: Tree, h: nat) {
    PathAvl(c, h) && h <= H(t) <= h + 1
  }

  lemma {:induction false} RefillNearlyAvl(c: Path, t: Tree, h: nat)
    requires !c.Top? && Avl(t) && Grown(c, t, h)
    ensures NearlyAvl(Refill(c, t))
    ensures Grown(c.up, Retrace(Refill(c, t)), c.height)
  {
    RetraceBalances(Refill(c, t));
  }

  lemma {:induction false} RefillUnshared(c: Path, t: Tree)
    requires !c.Top? && Unshared(t) && PathUnshared(c, Ptrs(t))
    ensures Unshared(Refill(c, t)) && PathUnshared(c.up, Ptrs(Refill(c, t)))
  {
    RefillPtrs(c, t);
  }

  lemma {:induction false} LowHeight(nodes: map<nat, AvlNode>, t: Tree)
    requires Stored(nodes, t) && Unshared(t) && Avl(t)
    requires |nodes| < 0x1_0000_0000_0000_0000
    ensures H(t) <= MAX_HEIGHT
  {
    StoredPtrs(nodes, t);
    SizeIsPtrs(t);
    assert |Ptrs(t)| <= |nodes.Keys| by {
      assert Ptrs(t) <= nodes.Keys;
      SubsetSize(Ptrs(t), nodes.Keys);
    }
    HeightBound(t);
  }

  lemma {:induction false} LowSides(nodes: map<nat, AvlNode>, t: Tree)
    requires NearlyAvl(t) && Stored(nodes, t) && Unshared(t)
    requires |nodes| < 0x1_0000_0000_0000_0000
    ensures H(t.left) <= MAX_HEIGHT && H(t.right) <= MAX_HEIGHT
  {
    LowHeight(nodes, t.left);
    LowHeight(nodes, t.right);
  }

  lemma {:induction false} SubsetSize(a: set<nat>, b: set<nat>)
    requires a <= b
    ensures |a| <= |b|
  {
    if a == {} {
    } else {
      var x :| x in a;
      SubsetSize(a - {x}, b - {x});
    }
  }

  /** Both sides are too low for any height near them to overflow. */
  ghost predicate LowSide(t: Tree) {
    H(t) <= MAX_HEIGHT && (t.Node? ==> H(t.left) <= MAX_HEIGHT && H(t.right) <= MAX_HEIGHT)
  }

  /** Where a search for `key` ends: at the node with that key, or at the node whose free side it belongs on. */
  ghost predicate Found(c: Path, t: Tree, key: Key, path: seq<Ptr>, ordering: Ordering) {
    && t.Node? && path == Pointers(c) + [t.ptr]
    && ordering == Compare(key, t.key)
    && (ordering.Less? ==> t.left.Leaf?) && (ordering.Greater? ==> t.right.Leaf?)
    && AllBelow(Before(c), key) && AllAbove(After(c), key)
  }

  lemma SortedAround(a: seq<Item>, l: seq<Item>, x: Item, r: seq<Item>, b: seq<Item>)
    requires Sorted(a + (l + [x] + r) + b)
    ensures AllBelow(l, x.key) && AllAbove(r, x.key)
  {
    var s := a + (l + [x] + r) + b;
    var n := |a| + |l|;
    assert s[n] == x;
    forall i | 0 <= i < |l| ensures Lt(l[i].key, x.key) {
      assert s[|a| + i] == l[i];
    }
    forall i | 0 <= i < |r| ensures Lt(x.key, r[i].key) {
      assert s[n + 1 + i] == r[i];
    }
  }

  lemma {:induction false} DescendLeft(c: Path, t: Tree, key: Key)
    requires t.Node? && Sorted(Items(Plug(c, t))) && Lt(key, t.key)
    requires AllBelow(Before(c), key) && AllAbove(After(c), key)
    ensures
      var c' := Left(c, t.ptr, t.key, t.value, t.height, t.right);
      AllBelow(Before(c'), key) && AllAbove(After(c'), key)
  {
    PlugItems(c, t);
    SortedAround(Before(c), Items(t.left), ItemOf(t), Items(t.right), After(c));
    forall i | 0 <= i < |Items(t.right)| ensures Lt(key, Items(t.right)[i].key) {
      LtTransitive(key, t.key, Items(t.right)[i].key);
    }
  }

  lemma {:induction false} DescendRight(c: Path, t: Tree, key: Key)
    requires t.Node? && Sorted(Items(Plug(c, t))) && Compare(key, t.key) == Greater
    requires AllBelow(Before(c), key) && AllAbove(After(c), key)
    ensures
      var c' := Right(c, t.ptr, t.key, t.value, t.height, t.left);
      AllBelow(Before(c'), key) && AllAbove(After(c'), key)
  {
    PlugItems(c, t);
    CompareFlip(key, t.key);
    SortedAround(Before(c), Items(t.left), ItemOf(t), Items(t.right), After(c));
    forall i | 0 <= i < |Items(t.left)| ensures Lt(Items(t.left)[i].key, key) {
      LtTransitive(Items(t.left)[i].key, t.key, key);
    }
  }

  /** The node is too large to encode, or the file would grow too large. */
  predicate CannotStore(key: Key, value: EntryData, fileSize: nat) {
    || !Fits(NewNode(key, value))
    || fileSize + RecordSize(NewNode(key, value)) > MAX_FILE_SIZE
  }

  // ----- Hanging a new leaf

  /** The position of the free side that a search ended at; `t` is what fills the hole left by its node. */
  ghost function FreeSide(c: Path, t: Tree, ordering: Ordering): Path
    requires t.Node?
  {
    if ordering.Less? then Left(c, t.ptr, t.key, t.value, t.height, t.right)
    else Right(c, t.ptr, t.key, t.value, t.height, t.left)
  }

  /** The free side that a search for an absent key ended at is where the key belongs. */
  lemma {:induction false} FreeSideFits(c: Path, t: Tree, key: Key, path: seq<Ptr>, ordering: Ordering)
    requires Sorted(Items(Plug(c, t)))
    requires Found(c, t, key, path, ordering) && ordering != Equal
    ensures
      var d := FreeSide(c, t, ordering);
      && !d.Top? && Plug(d, Leaf) == Plug(c, t) && Pointers(d) == path && d.ptr == path[|path| - 1]
      && FitsAt(d, Plug(c, t), key)
  {
    var d := FreeSide(c, t, ordering);
    if ordering.Less? {
      DescendLeft(c, t, key);
    } else {
      DescendRight(c, t, key);
    }
    assert Refill(d, Leaf) == t;
    PlugItems(d, Leaf);
    LtIrreflexive(key);
  }

  lemma {:induction false} HoleIsFree(root: Option<Ptr>, nodes: map<nat, AvlNode>, c: Path)
    requires Consistent(root, nodes, Plug(c, Leaf))
    ensures PathStored(nodes, c, None) && PathUnshared(c, {}) && Avl(Plug(c, Leaf))
    ensures root == Root(Plug(c, Leaf)) && Sorted(Items(Plug(c, Leaf)))
  {
    PlugStored(nodes, c, Leaf);
    PlugUnshared(c, Leaf);
  }

  /** An absent key belongs in the hole of `c`. */
  ghost predicate FitsAt(c: Path, t: Tree, key: Key) {
    && AllBelow(Before(c), key) && AllAbove(After(c), key)
    && Items(t) == Before(c) + After(c)
    && !HasKey(Items(t), key)
  }

  lemma {:induction false} PathUnsharedGrows(nodes: map<nat, AvlNode>, c: Path, hole: Option<Ptr>, below: set<Ptr>,
                                             p: Ptr)
    requires PathStored(nodes, c, hole) && PathUnshared(c, below) && p !in nodes
    ensures PathUnshared(c, below + {p})
  {
    if c.Top? {
    } else {
      StoredPtrs(nodes, c.other);
      PathUnsharedGrows(nodes, c.up, Some(c.ptr), {c.ptr} + below + Ptrs(c.other), p);
      assert {c.ptr} + below + Ptrs(c.other) + {p} == {c.ptr} + (below + {p}) + Ptrs(c.other);
    }
  }

  lemma {:induction false} PlugMorePtrs(c: Path, t: Tree, t': Tree, more: set<Ptr>)
    requires Ptrs(t') == Ptrs(t) + more
    ensures Ptrs(Plug(c, t')) == Ptrs(Plug(c, t)) + more
  {
    if c.Top? {
    } else {
      RefillPtrs(c, t);
      RefillPtrs(c, t');
      PlugMorePtrs(c.up, Refill(c, t), Refill(c, t'), more);
    }
  }

  function NewLeaf(x: Item): Tree {
    Node(x.ptr, x.key, x.value, 1, Leaf, Leaf)
  }

  function NewNode(key: Key, value: EntryData): AvlNode {
    AvlNode(key, value, 1, None, None)
  }

  /** Filling the free side with a new leaf leaves the root where it was and adds one pointer. */
  lemma {:induction false} LeafShape(c: Path, x: Item)
    requires !c.Top? && Avl(Plug(c, Leaf))
    ensures Grown(c, NewLeaf(x), 0) && Avl(NewLeaf(x)) && Unshared(NewLeaf(x))
    ensures Root(Plug(c, NewLeaf(x))) == Root(Plug(c, Leaf))
    ensures Ptrs(NewLeaf(x)) == {x.ptr}
    ensures Ptrs(Plug(c, NewLeaf(x))) == Ptrs(Plug(c, Leaf)) + {x.ptr}
  {
    PlugAvl(c, Leaf);
    PlugMorePtrs(c, Leaf, NewLeaf(x), {x.ptr});
    PlugRoot(c, NewLeaf(x));
    PlugRoot(c, Leaf);
  }

  /** Appending a node and linking it to the free side leaves the tree ready for retracing. */
  lemma {:induction false} HangLeaf(nodes: map<nat, AvlNode>, c: Path, x: Item, n: AvlNode)
    requires !c.Top? && PathStored(nodes, c, None) && PathUnshared(c, {}) && Avl(Plug(c, Leaf))
    requires x.ptr !in nodes
    requires n == if c.Left? then nodes[c.ptr].(left := Some(x.ptr)) else nodes[c.ptr].(right := Some(x.ptr))
    ensures Hanging(nodes[x.ptr := NewNode(x.key, x.value)][c.ptr := n], c, NewLeaf(x), None)
  {
    LeafShape(c, x);
    PathUnsharedGrows(nodes, c, None, {}, x.ptr);
    assert {} + {x.ptr} == {x.ptr};
    HangPath(nodes, c, x, n);
  }

  lemma {:induction false} HangPath(nodes: map<nat, AvlNode>, c: Path, x: Item, n: AvlNode)
    requires !c.Top? && PathStored(nodes, c, None) && PathUnshared(c, {x.ptr}) && x.ptr !in nodes
    requires n == if c.Left? then nodes[c.ptr].(left := Some(x.ptr)) else nodes[c.ptr].(right := Some(x.ptr))
    ensures PathStored(nodes[x.ptr := NewNode(x.key, x.value)][c.ptr := n], c, Some(x.ptr))
  {
    var nodes' := nodes[x.ptr := NewNode(x.key, x.value)][c.ptr := n];
    StoredPtrs(nodes, c.other);
    StoredFrame(nodes, nodes', c.other, {x.ptr, c.ptr});
    PathStoredFrame(nodes, nodes', c.up, Some(c.ptr), {c.ptr} + {x.ptr} + Ptrs(c.other));
  }

  /** `x` has been added, in key order and last in the file; no other name, data or pointer differs. */
  ghost predicate Inserted(t: Tree, nodes: map<nat, AvlNode>, es: seq<Record>,
                           t': Tree, nodes': map<nat, AvlNode>, es': seq<Record>, x: Item) {
    && Items(t') == InsertItem(Items(t), x)
    && x.ptr !in nodes && nodes'.Keys == nodes.Keys + {x.ptr}
    && (forall p :: p in nodes ==> nodes'[p].key == nodes[p].key && nodes'[p].value == nodes[p].value)
    && Fits(NewNode(x.key, x.value)) && SameListing(es + [NewNode(x.key, x.value)], es')
  }

  /** From the steps of an insertion to its outcome. */
  lemma {:induction false} InsertionOutcome(t: Tree, nodes: map<nat, AvlNode>, es: seq<Record>,
                         nodes1: map<nat, AvlNode>, es1: seq<Record>,
                         root': Option<Ptr>, t': Tree, nodes': map<nat, AvlNode>, es': seq<Record>, c: Path, x: Item)
    requires Consistent(Root(t), nodes, t) && x.ptr !in nodes && Fits(NewNode(x.key, x.value))
    requires Plug(c, Leaf) == t && !c.Top? && FitsAt(c, t, x.key)
    requires Relinked(nodes[x.ptr := NewNode(x.key, x.value)], nodes1, {c.ptr})
    requires SameListing(es + [NewNode(x.key, x.value)], es1)
    requires root' == Root(t') && Stored(nodes', t') && Unshared(t') && Avl(t')
    requires Items(t') == Before(c) + Items(NewLeaf(x)) + After(c)
    requires Ptrs(t') == Ptrs(Plug(c, NewLeaf(x)))
    requires Relinked(nodes1, nodes', Ptrs(t')) && SameListing(es1, es')
    ensures Consistent(root', nodes', t')
    ensures Inserted(t, nodes, es, t', nodes', es', x)
  {
    InsertedItems(t, t', c, x);
    LeafShape(c, x);
    SameListingTwice(es + [NewNode(x.key, x.value)], es1, es');
    var appended := nodes[x.ptr := NewNode(x.key, x.value)];
    assert forall p :: p in nodes ==> p in appended && appended[p] == nodes[p];
  }

  lemma {:induction false} InsertedItems(t: Tree, t': Tree, c: Path, x: Item)
    requires Plug(c, Leaf) == t && Sorted(Items(t)) && FitsAt(c, t, x.key)
    requires Items(t') == Before(c) + Items(NewLeaf(x)) + After(c)
    ensures Items(t') == InsertItem(Items(t), x) && Sorted(Items(t'))
  {
    InsertItemBetween(Before(c), x, After(c));
    InsertItemSorted(Items(t), x);
    assert Items(NewLeaf(x)) == [x];
  }

  lemma FirstLeaf(root: Option<Ptr>, nodes: map<nat, AvlNode>, es: seq<Record>, x: Item)
    requires Consistent(root, nodes, Leaf) && x.ptr !in nodes && Fits(NewNode(x.key, x.value))
    ensures
      var nodes' := nodes[x.ptr := NewNode(x.key, x.value)];
      && Consistent(Some(x.ptr), nodes', NewLeaf(x))
      && Inserted(Leaf, nodes, es, NewLeaf(x), nodes', es + [NewNode(x.key, x.value)], x)
  {
    assert nodes == map[] by {
      assert forall p :: p in nodes ==> p in Ptrs(Leaf);
    }
    assert Items(NewLeaf(x)) == [x];
  }

  // ----- What a finished search tells

  lemma {:induction false} FoundDecides(c: Path, t: Tree, key: Key, path: seq<Ptr>, ordering: Ordering)
    requires Sorted(Items(Plug(c, t))) && Found(c, t, key, path, ordering)
    ensures HasKey(Items(Plug(c, t)), key) <==> ordering == Equal
    ensures Find(Items(Plug(c, t)), key) == if ordering == Equal then Some(t.value) else None
    ensures ordering == Equal ==> Around(c, t, key)
  {
    var s := Items(Plug(c, t));
    if ordering == Equal {
      CompareEqual(key, t.key);
      PlugItems(c, t);
      SortedAround(Before(c), Items(t.left), ItemOf(t), Items(t.right), After(c));
      Regroup(Before(c), Items(t.left), [ItemOf(t)], Items(t.right), After(c));
      FindBetween(Before(c) + Items(t.left), ItemOf(t), Items(t.right) + After(c));
      FindAbsent(s, key);
    } else {
      FreeSideFits(c, t, key, path, ordering);
      FindAbsent(s, key);
    }
  }

  /** `t`'s node holds `key`, and the entries around it do not. */
  ghost predicate Around(c: Path, t: Tree, key: Key)
    requires t.Node?
  {
    && t.key == key
    && AllBelow(Before(c) + Items(t.left), key) && AllAbove(Items(t.right) + After(c), key)
    && Items(Plug(c, t)) == (Before(c) + Items(t.left)) + [ItemOf(t)] + (Items(t.right) + After(c))
  }

  /** Replacing the value in the node that a search found. */
  lemma {:induction false} SetAt(root: Option<Ptr>, nodes: map<nat, AvlNode>, c: Path, t: Tree, value: EntryData)
    requires Consistent(root, nodes, Plug(c, t)) && t.Node? && Around(c, t, t.key)
    requires Stored(nodes, t)
    ensures
      var nodes' := nodes[t.ptr := nodes[t.ptr].(value := value)];
      var t' := Plug(c, t.(value := value));
      && Consistent(root, nodes', t')
      && Items(t') == SetValue(Items(Plug(c, t)), t.key, value)
      && OnlyValueChanged(nodes, nodes', t.key, value)
  {
    var nodes' := nodes[t.ptr := nodes[t.ptr].(value := value)];
    SetAtStored(root, nodes, c, t, value);
    SetAtItems(c, t, value);
    SetValueSorted(Items(Plug(c, t)), t.key, value);
    assert t.ptr in nodes && nodes[t.ptr].key == t.key;
    forall p | p in nodes && nodes[p].key == t.key ensures p == t.ptr {
      OneHolder(nodes, Plug(c, t), p, t.ptr);
    }
  }

  /** No two nodes of a consistent tree have the same key. */
  lemma OneHolder(nodes: map<nat, AvlNode>, t: Tree, p: Ptr, q: Ptr)
    requires Consistent(Root(t), nodes, t) && p in nodes && q in nodes && nodes[p].key == nodes[q].key
    ensures p == q
  {
    var i := ItemHeldBy(nodes, t, p);
    var j := ItemHeldBy(nodes, t, q);
    LtIrreflexive(nodes[p].key);
    assert i == j;
  }

  lemma {:induction false} SetAtItems(c: Path, t: Tree, value: EntryData)
    requires t.Node? && Around(c, t, t.key)
    ensures Items(Plug(c, t.(value := value))) == SetValue(Items(Plug(c, t)), t.key, value)
  {
    var u := t.(value := value);
    var a, b := Before(c) + Items(t.left), Items(t.right) + After(c);
    SetValueBetween(a, ItemOf(t), b, value);
    calc {
      Items(Plug(c, u));
      { PlugItems(c, u); }
      Before(c) + Items(u) + After(c);
      { assert Items(u) == Items(t.left) + [ItemOf(u)] + Items(t.right); }
      Before(c) + (Items(t.left) + [ItemOf(u)] + Items(t.right)) + After(c);
      { Regroup(Before(c), Items(t.left), [ItemOf(u)], Items(t.right), After(c)); }
      a + [ItemOf(u)] + b;
    }
  }

  lemma SetAtStored(root: Option<Ptr>, nodes: map<nat, AvlNode>, c: Path, t: Tree, value: EntryData)
    requires Consistent(root, nodes, Plug(c, t)) && t.Node? && Stored(nodes, t)
    ensures
      var nodes' := nodes[t.ptr := nodes[t.ptr].(value := value)];
      var t' := Plug(c, t.(value := value));
      && root == Root(t') && Stored(nodes', t') && Unshared(t') && Avl(t')
      && (forall p :: p in nodes' ==> p in Ptrs(t'))
  {
    var u := t.(value := value);
    var nodes' := nodes[t.ptr := nodes[t.ptr].(value := value)];
    PlugStored(nodes, c, t);
    PlugUnshared(c, t);
    PlugAvl(c, t);
    SetLocally(nodes, t, value);
    hide Stored, Unshared, Avl, Plug, Ptrs, PathStored, PathUnshared, PathAvl, Sorted, Items;
    PathStoredFrame(nodes, nodes', c, Root(t), Ptrs(t));
    PlugStored(nodes', c, u);
    PlugUnshared(c, u);
    PlugAvl(c, u);
    PlugRoot(c, t);
    PlugRoot(c, u);
    PlugSamePtrs(c, t, u);
    PlugPtrs(c, t);
  }

  /** Replacing a node's value changes nothing else about its subtree. */
  lemma SetLocally(nodes: map<nat, AvlNode>, t: Tree, value: EntryData)
    requires t.Node? && Stored(nodes, t) && Unshared(t) && Avl(t)
    ensures
      var nodes' := nodes[t.ptr := nodes[t.ptr].(value := value)];
      var u := t.(value := value);
      && Stored(nodes', u) && Unshared(u) && Avl(u) && Ptrs(u) == Ptrs(t) && Root(u) == Root(t) && H(u) == H(t)
      && SameOutside(nodes, nodes', Ptrs(t)) && t.ptr in Ptrs(t)
  {
    var nodes' := nodes[t.ptr := nodes[t.ptr].(value := value)];
    StoredFrame(nodes, nodes', t.left, {t.ptr});
    StoredFrame(nodes, nodes', t.right, {t.ptr});
  }

  lemma {:induction false} ItemHeldBy(nodes: map<nat, AvlNode>, t: Tree, p: Ptr) returns (i: nat)
    requires Stored(nodes, t) && p in Ptrs(t)
    ensures i < |Items(t)| && Items(t)[i].ptr == p && p in nodes && Items(t)[i].key == nodes[p].key
  {
    if p == t.ptr {
      i := |Items(t.left)|;
    } else if p in Ptrs(t.left) {
      i := ItemHeldBy(nodes, t.left, p);
    } else {
      i := ItemHeldBy(nodes, t.right, p);
      i := |Items(t.left)| + 1 + i;
    }
  }

  ghost predicate OnlyValueChanged(nodes: map<nat, AvlNode>, nodes': map<nat, AvlNode>, key: Key, value: EntryData) {
    && nodes'.Keys == nodes.Keys
    && forall p :: p in nodes ==> nodes'[p] == if nodes[p].key == key then nodes[p].(value := value) else nodes[p]
  }

  class AvlTree {
    const storage: DirectoryEntryStorage
    ghost var tree: Tree

    ghost predicate Valid()
      reads this, storage, storage.stream`data
    {
      storage.Valid() && Consistent(storage.root, storage.nodes, tree)
    }

    /** Nothing is different from `tree0`, `nodes0` and `entries0`. */
    ghost predicate Unmodified(tree0: Tree, nodes0: map<nat, AvlNode>, entries0: seq<Record>)
      reads this, storage
    {
      tree == tree0 && storage.nodes == nodes0 && storage.entries == entries0
    }

    constructor (storage: DirectoryEntryStorage, ghost tree: Tree)
      requires storage.Valid() && Consistent(storage.root, storage.nodes, tree)
      ensures Valid() && this.storage == storage && this.tree == tree
    {
      this.storage := storage;
      this.tree := tree;
    }

    // ----- Heights

    method GetHeight(node: Option<Ptr>) returns (h: u32)
      requires storage.Valid() && (node.Some? ==> node.value in storage.nodes)
      modifies storage.stream`position
      ensures h == HeightAt(storage.nodes, node)
    {
      if node.None? {
        return 0;
      }
      var n := storage.LookUp(node.value);
      return n.height;
    }

    method UpdateHeight(node: AvlNode) returns (r: AvlNode)
      requires storage.Valid()
      requires node.left.Some? ==> node.left.value in storage.nodes
      requires node.right.Some? ==> node.right.value in storage.nodes
      requires HeightAt(storage.nodes, node.left) < 0x7fff_0000 && HeightAt(storage.nodes, node.right) < 0x7fff_0000
      modifies storage.stream`position
      ensures r == node.(height := 1 + Max(HeightAt(storage.nodes, node.left), HeightAt(storage.nodes, node.right)))
    {
      var rightHeight := GetHeight(node.right);
      var leftHeight := GetHeight(node.left);
      r := node.(height := 1 + if leftHeight > rightHeight then leftHeight else rightHeight);
    }

    /** The casts to `i32` keep both heights and the subtraction stays in range. */
    method BalanceFactor(node: AvlNode) returns (b: int)
      requires storage.Valid()
      requires node.left.Some? ==> node.left.value in storage.nodes
      requires node.right.Some? ==> node.right.value in storage.nodes
      requires HeightAt(storage.nodes, node.left) < 0x7fff_0000 && HeightAt(storage.nodes, node.right) < 0x7fff_0000
      modifies storage.stream`position
      ensures b == HeightAt(storage.nodes, node.right) - HeightAt(storage.nodes, node.left)
      ensures -0x8000_0000 <= b < 0x8000_0000
    {
      var rightHeight := GetHeight(node.right);
      var leftHeight := GetHeight(node.left);
      b := AsI32(rightHeight) - AsI32(leftHeight);
    }

    method BalanceFactorPtr(ptr: Ptr, ghost t: Tree) returns (b: int)
      requires storage.Valid() && t.Node? && t.ptr == ptr && Stored(storage.nodes, t)
      requires H(t.left) < 0x7fff_0000 && H(t.right) < 0x7fff_0000
      modifies storage.stream`position
      ensures b == Balance(t)
    {
      var node := storage.LookUp(ptr);
      b := BalanceFactor(node);
    }

    // ----- Rotations

    /** `update_height` and then `update`: the pair of steps that every relinking ends with. */
    method FixNode(ptr: Ptr, node: AvlNode, ghost t: Tree)
      requires storage.Valid() && StoredBelow(storage.nodes, t) && Unshared(t) && t.ptr == ptr
      requires node.key == t.key && node.value == t.value && node.left == Root(t.left) && node.right == Root(t.right)
      requires H(t.left) < 0x7fff_0000 && H(t.right) < 0x7fff_0000
      modifies storage`entries, storage`nodes, storage.stream
      ensures storage.Valid() && Stored(storage.nodes, Fix(t))
      ensures Relinked(old(storage.nodes), storage.nodes, {ptr})
      ensures SameListing(old(storage.entries), storage.entries)
    {
      hide DirectoryEntryStorage.Valid;
      var fixed := UpdateHeight(node);
      WriteRoot(storage.nodes, Fix(t), fixed);
      storage.Update(ptr, fixed);
    }

    method DoLeftRotation(oldRootPtr: Ptr, ghost t: Tree) returns (newRootPtr: Ptr)
      requires storage.Valid() && Stored(storage.nodes, t) && Unshared(t)
      requires t.Node? && t.ptr == oldRootPtr && t.right.Node?
      requires H(t.left) < 0x7ffe_0000 && H(t.right.left) < 0x7ffe_0000 && H(t.right.right) < 0x7ffe_0000
      modifies storage`entries, storage`nodes, storage.stream
      ensures storage.Valid() && Stored(storage.nodes, RotateLeft(t)) && newRootPtr == t.right.ptr
      ensures Relinked(old(storage.nodes), storage.nodes, Ptrs(t))
      ensures SameListing(old(storage.entries), storage.entries)
    {
      var oldRoot := storage.LookUp(oldRootPtr);
      newRootPtr := oldRoot.right.value;
      FinishLeftRotation(oldRootPtr, oldRoot, newRootPtr, t);
    }

    /** The writes that `do_left_rotation` and `do_right_left_rotation` end with. */
    method FinishLeftRotation(oldRootPtr: Ptr, oldRoot: AvlNode, newRootPtr: Ptr, ghost t: Tree)
      requires storage.Valid() && StoredBelow(storage.nodes, t) && Unshared(t)
      requires t.ptr == oldRootPtr && t.right.Node? && t.right.ptr == newRootPtr
      requires oldRoot.key == t.key && oldRoot.value == t.value && oldRoot.left == Root(t.left)
      requires H(t.left) < 0x7ffe_0000 && H(t.right.left) < 0x7ffe_0000 && H(t.right.right) < 0x7ffe_0000
      modifies storage`entries, storage`nodes, storage.stream
      ensures storage.Valid() && Stored(storage.nodes, RotateLeft(t))
      ensures Relinked(old(storage.nodes), storage.nodes, Ptrs(t))
      ensures SameListing(old(storage.entries), storage.entries)
    {
      ghost var r := t.right;
      assert Stored(storage.nodes, r.left) && Stored(storage.nodes, r.right);
      ghost var down := t.(right := r.left);
      ghost var up := r.(left := Fix(down));
      RotateLeftUnshared(t);
      var newRoot := storage.LookUp(newRootPtr);
      var oldLeft := newRoot.left;
      newRoot := newRoot.(left := Some(oldRootPtr));
      FixNode(oldRootPtr, oldRoot.(right := oldLeft), down);
      label Linked:
      StoredFrame(old(storage.nodes), storage.nodes, r.right, {oldRootPtr});
      FixNode(newRootPtr, newRoot, up);
      RelinkedTwice(old(storage.nodes), old@Linked(storage.nodes), storage.nodes, {oldRootPtr}, {newRootPtr}, Ptrs(t));
    }

    method DoRightRotation(oldRootPtr: Ptr, ghost t: Tree) returns (newRootPtr: Ptr)
      requires storage.Valid() && Stored(storage.nodes, t) && Unshared(t)
      requires t.Node? && t.ptr == oldRootPtr && t.left.Node?
      requires H(t.right) < 0x7ffe_0000 && H(t.left.left) < 0x7ffe_0000 && H(t.left.right) < 0x7ffe_0000
      modifies storage`entries, storage`nodes, storage.stream
      ensures storage.Valid() && Stored(storage.nodes, RotateRight(t)) && newRootPtr == t.left.ptr
      ensures Relinked(old(storage.nodes), storage.nodes, Ptrs(t))
      ensures SameListing(old(storage.entries), storage.entries)
    {
      var oldRoot := storage.LookUp(oldRootPtr);
      newRootPtr := oldRoot.left.value;
      FinishRightRotation(oldRootPtr, oldRoot, newRootPtr, t);
    }

    /** The writes that `do_right_rotation` and `do_left_right_rotation` end with. */
    method FinishRightRotation(oldRootPtr: Ptr, oldRoot: AvlNode, newRootPtr: Ptr, ghost t: Tree)
      requires storage.Valid() && StoredBelow(storage.nodes, t) && Unshared(t)
      requires t.ptr == oldRootPtr && t.left.Node? && t.left.ptr == newRootPtr
      requires oldRoot.key == t.key && oldRoot.value == t.value && oldRoot.right == Root(t.right)
      requires H(t.right) < 0x7ffe_0000 && H(t.left.left) < 0x7ffe_0000 && H(t.left.right) < 0x7ffe_0000
      modifies storage`entries, storage`nodes, storage.stream
      ensures storage.Valid() && Stored(storage.nodes, RotateRight(t))
      ensures Relinked(old(storage.nodes), storage.nodes, Ptrs(t))
      ensures SameListing(old(storage.entries), storage.entries)
    {
      ghost var l := t.left;
      assert Stored(storage.nodes, l.left) && Stored(storage.nodes, l.right);
      ghost var down := t.(left := l.right);
      ghost var up := l.(right := Fix(down));
      RotateRightUnshared(t);
      var newRoot := storage.LookUp(newRootPtr);
      var oldRight := newRoot.right;
      newRoot := newRoot.(right := Some(oldRootPtr));
      FixNode(oldRootPtr, oldRoot.(left := oldRight), down);
      label Linked:
      StoredFrame(old(storage.nodes), storage.nodes, l.left, {oldRootPtr});
      FixNode(newRootPtr, newRoot, up);
      RelinkedTwice(old(storage.nodes), old@Linked(storage.nodes), storage.nodes, {oldRootPtr}, {newRootPtr}, Ptrs(t));
    }

    method DoRightLeftRotation(oldRootPtr: Ptr, ghost t: Tree) returns (newRootPtr: Ptr)
      requires storage.Valid() && Stored(storage.nodes, t) && Unshared(t)
      requires t.Node? && t.ptr == oldRootPtr && t.right.Node? && t.right.left.Node?
      requires LowSide(t.left) && LowSide(t.right) && LowSide(t.right.left)
      modifies storage`entries, storage`nodes, storage.stream
      ensures storage.Valid() && newRootPtr == t.right.left.ptr
      ensures Stored(storage.nodes, RotateLeft(t.(right := RotateRight(t.right))))
      ensures Relinked(old(storage.nodes), storage.nodes, Ptrs(t))
      ensures SameListing(old(storage.entries), storage.entries)
    {
      ghost var turned := t.(right := RotateRight(t.right));
      RotateRightEntries(t.right);
      var oldRoot := storage.LookUp(oldRootPtr);
      newRootPtr := oldRoot.right.value;
      newRootPtr := DoRightRotation(newRootPtr, t.right);
      label Turned:
      StoredFrame(old(storage.nodes), storage.nodes, t.left, Ptrs(t.right));
      FinishLeftRotation(oldRootPtr, oldRoot, newRootPtr, turned);
      RelinkedTwice(old(storage.nodes), old@Turned(storage.nodes), storage.nodes, Ptrs(t.right), Ptrs(turned), Ptrs(t));
    }

    method DoLeftRightRotation(oldRootPtr: Ptr, ghost t: Tree) returns (newRootPtr: Ptr)
      requires storage.Valid() && Stored(storage.nodes, t) && Unshared(t)
      requires t.Node? && t.ptr == oldRootPtr && t.left.Node? && t.left.right.Node?
      requires LowSide(t.right) && LowSide(t.left) && LowSide(t.left.right)
      modifies storage`entries, storage`nodes, storage.stream
      ensures storage.Valid() && newRootPtr == t.left.right.ptr
      ensures Stored(storage.nodes, RotateRight(t.(left := RotateLeft(t.left))))
      ensures Relinked(old(storage.nodes), storage.nodes, Ptrs(t))
      ensures SameListing(old(storage.entries), storage.entries)
    {
      ghost var turned := t.(left := RotateLeft(t.left));
      RotateLeftEntries(t.left);
      var oldRoot := storage.LookUp(oldRootPtr);
      newRootPtr := oldRoot.left.value;
      newRootPtr := DoLeftRotation(newRootPtr, t.left);
      label Turned:
      StoredFrame(old(storage.nodes), storage.nodes, t.right, Ptrs(t.left));
      FinishRightRotation(oldRootPtr, oldRoot, newRootPtr, turned);
      RelinkedTwice(old(storage.nodes), old@Turned(storage.nodes), storage.nodes, Ptrs(t.left), Ptrs(turned), Ptrs(t));
    }

    method DoRebalance(nodePtr: Ptr, balanceFactor: int, ghost t: Tree) returns (newPtr: Ptr)
      requires storage.Valid() && NearlyAvl(t) && Stored(storage.nodes, t) && Unshared(t)
      requires t.ptr == nodePtr && balanceFactor == Balance(t) && !(-1 <= balanceFactor <= 1)
      requires H(t.left) <= MAX_HEIGHT && H(t.right) <= MAX_HEIGHT
      modifies storage`entries, storage`nodes, storage.stream
      ensures storage.Valid() && Stored(storage.nodes, Retrace(t)) && Root(Retrace(t)) == Some(newPtr)
      ensures Relinked(old(storage.nodes), storage.nodes, Ptrs(t))
      ensures SameListing(old(storage.entries), storage.entries)
    {
      hide DirectoryEntryStorage.Valid;
      var node := storage.LookUp(nodePtr);
      if balanceFactor > 0 {
        assert Avl(t.right) && Avl(t.right.left);
        var right := BalanceFactorPtr(node.right.value, t.right);
        if right < 0 {
          newPtr := DoRightLeftRotation(nodePtr, t);
        } else {
          newPtr := DoLeftRotation(nodePtr, t);
        }
      } else {
        assert Avl(t.left) && Avl(t.left.right);
        var left := BalanceFactorPtr(node.left.value, t.left);
        if left > 0 {
          newPtr := DoLeftRightRotation(nodePtr, t);
        } else {
          newPtr := DoRightRotation(nodePtr, t);
        }
      }
    }

    // ----- Retracing

    method RetraceOne(cPtr: Ptr, ghost t: Tree) returns (moved: Option<(Ptr, Ptr)>)
      requires storage.Valid() && NearlyAvl(t) && Stored(storage.nodes, t) && Unshared(t) && t.ptr == cPtr
      modifies storage`entries, storage`nodes, storage.stream
      ensures storage.Valid() && Stored(storage.nodes, Retrace(t))
      ensures moved.Some? <==> !(-1 <= Balance(t) <= 1)
      ensures moved.None? ==> Root(Retrace(t)) == Some(cPtr)
      ensures moved.Some? ==> moved.value.0 == cPtr && Root(Retrace(t)) == Some(moved.value.1)
      ensures Relinked(old(storage.nodes), storage.nodes, Ptrs(t))
      ensures SameListing(old(storage.entries), storage.entries)
    {
      hide DirectoryEntryStorage.Valid;
      storage.FewNodes();
      LowSides(storage.nodes, t);
      var c := storage.LookUp(cPtr);
      var balanceFactor := BalanceFactor(c);
      if !(-1 <= balanceFactor <= 1) {
        var newPtr := DoRebalance(cPtr, balanceFactor, t);
        moved := Some((cPtr, newPtr));
      } else {
        FixNode(cPtr, c, t);
        moved := None;
      }
    }

    method ReplaceChild(parentPtr: Ptr, oldChild: Ptr, newChild: Ptr, ghost c: Path, ghost t: Tree)
      requires storage.Valid() && Hanging(storage.nodes, c, t, Some((oldChild, newChild)))
      requires !c.Top? && c.ptr == parentPtr
      modifies storage`entries, storage`nodes, storage.stream
      ensures storage.Valid() && Hanging(storage.nodes, c, t, None)
      ensures Relinked(old(storage.nodes), storage.nodes, {parentPtr})
      ensures SameListing(old(storage.entries), storage.entries)
    {
      hide DirectoryEntryStorage.Valid;
      var parent := storage.LookUp(parentPtr);
      if parent.left == Some(oldChild) {
        parent := parent.(left := Some(newChild));
      } else {
        parent := parent.(right := Some(newChild));
      }
      WriteChild(storage.nodes, c, t, oldChild, newChild, parent);
      storage.Update(parentPtr, parent);
    }

    /** One turn of `do_retracing`'s loop: the nearest ancestor takes its new child and is retraced. */
    method RetraceStep(cPtr: Ptr, moved: Option<(Ptr, Ptr)>, ghost c: Path, ghost t: Tree, ghost h: nat)
      returns (moved': Option<(Ptr, Ptr)>)
      requires storage.Valid() && !c.Top? && c.ptr == cPtr
      requires Hanging(storage.nodes, c, t, moved) && Grown(c, t, h)
      modifies storage`entries, storage`nodes, storage.stream
      ensures storage.Valid()
      ensures NearlyAvl(Refill(c, t)) && Hanging(storage.nodes, c.up, Retrace(Refill(c, t)), moved')
      ensures moved'.None? ==> Root(Retrace(Refill(c, t))) == Some(cPtr)
      ensures moved'.Some? ==> moved'.value.0 == cPtr
      ensures Relinked(old(storage.nodes), storage.nodes, Ptrs(Refill(c, t)))
      ensures SameListing(old(storage.entries), storage.entries)
    {
      hide DirectoryEntryStorage.Valid;
      if moved.Some? {
        ReplaceChild(cPtr, moved.value.0, moved.value.1, c, t);
      }
      label Linked:
      ghost var u := Refill(c, t);
      RefillNearlyAvl(c, t, h);
      RefillUnshared(c, t);
      RefillPtrs(c, t);
      assert Stored(storage.nodes, u);
      moved' := RetraceOne(cPtr, u);
      RetraceHangs(old@Linked(storage.nodes), storage.nodes, c, u);
    }

    method DoRetracing(path: seq<Ptr>, ghost c: Path, ghost t: Tree, ghost h: nat) returns (ghost t': Tree)
      requires storage.Valid() && Pointers(c) == path
      requires Hanging(storage.nodes, c, t, None) && Grown(c, t, h)
      requires storage.root == Root(Plug(c, t))
      modifies storage`entries, storage`nodes, storage`root, storage.stream
      ensures storage.Valid() && storage.root == Root(t')
      ensures Stored(storage.nodes, t') && Unshared(t') && Avl(t')
      ensures Items(t') == Before(c) + Items(t) + After(c)
      ensures Ptrs(t') == Ptrs(Plug(c, t))
      ensures Relinked(old(storage.nodes), storage.nodes, Ptrs(t'))
      ensures SameListing(old(storage.entries), storage.entries)
    {
      hide DirectoryEntryStorage.Valid;
      var rest := path;
      var moved: Option<(Ptr, Ptr)> := None;
      ghost var d, u, g := c, t, h;
      ghost var items, ptrs := Before(c) + Items(t) + After(c), Ptrs(Plug(c, t));
      StartTurning(storage.nodes, storage.entries, c, t, h, ptrs);
      hide Turning, Relinked, SameListing, Plug, Ptrs, Items, Avl, Stored, Unshared, Before, After;
      while rest != []
        invariant storage.Valid()
        invariant Turning(storage.root, storage.nodes, rest, moved, d, u, g, items, ptrs)
        invariant Relinked(old(storage.nodes), storage.nodes, ptrs)
        invariant SameListing(old(storage.entries), storage.entries)
      {
        moved, d, u, g := Turn(rest, moved, d, u, g, items, ptrs, old(storage.nodes), old(storage.entries));
        rest := rest[..|rest| - 1];
      }
      EndTurning(storage.root, storage.nodes, moved, d, u, g, items, ptrs);
      if moved.Some? {
        storage.SetRoot(moved.value.1);
      }
      t' := u;
    }

    method Turn(rest: seq<Ptr>, moved: Option<(Ptr, Ptr)>,
                ghost c: Path, ghost t: Tree, ghost h: nat, ghost items: seq<Item>, ghost ptrs: set<Ptr>,
                ghost nodes0: map<nat, AvlNode>, ghost entries0: seq<Record>)
      returns (moved': Option<(Ptr, Ptr)>, ghost c': Path, ghost t': Tree, ghost h': nat)
      requires storage.Valid() && rest != []
      requires Turning(storage.root, storage.nodes, rest, moved, c, t, h, items, ptrs)
      requires Relinked(nodes0, storage.nodes, ptrs) && SameListing(entries0, storage.entries)
      modifies storage`entries, storage`nodes, storage.stream
      ensures storage.Valid()
      ensures Turning(storage.root, storage.nodes, rest[..|rest| - 1], moved', c', t', h', items, ptrs)
      ensures Relinked(nodes0, storage.nodes, ptrs) && SameListing(entries0, storage.entries)
    {
      moved' := RetraceStep(rest[|rest| - 1], moved, c, t, h);
      RearrangedStep(c, t, h, items, ptrs);
      RelinkedTwice(nodes0, old(storage.nodes), storage.nodes, ptrs, Ptrs(Refill(c, t)), ptrs);
      SameListingTwice(entries0, old(storage.entries), storage.entries);
      c', t', h' := c.up, Retrace(Refill(c, t)), c.height;
    }

    // ----- Searching

    /** The path of pointers to where `key` is or belongs; at most as long as the tree is high. */
    method BinarySearch(key: Key) returns (r: Option<(seq<Ptr>, Ordering)>, ghost c: Path, ghost t: Tree)
      requires Valid()
      modifies storage.stream`position
      ensures r.None? <==> tree.Leaf?
      ensures r.Some? ==> Plug(c, t) == tree && Found(c, t, key, r.value.0, r.value.1)
      ensures r.Some? ==> |r.value.0| <= H(tree) <= MAX_HEIGHT
      ensures OnBoundary(storage.entries, storage.stream.position)
    {
      var root := storage.Root();
      c, t := Top, tree;
      if root.None? {
        return None, c, t;
      }
      storage.FewNodes();
      LowHeight(storage.nodes, tree);
      var currentPtr := root.value;
      var path: seq<Ptr> := [];
      while true
        invariant t.Node? && t.ptr == currentPtr && Plug(c, t) == tree && Stored(storage.nodes, t)
        invariant path == Pointers(c)
        invariant AllBelow(Before(c), key) && AllAbove(After(c), key)
        invariant OnBoundary(storage.entries, storage.stream.position)
        decreases t
      {
        path := path + [currentPtr];
        PathHeight(c, t);
        PlugAvl(c, t);
        var current := storage.LookUp(currentPtr);
        var ordering := Compare(key, current.key);
        match ordering
        case Less =>
          if current.left.None? {
            return Some((path, Less)), c, t;
          }
          DescendLeft(c, t, key);
          currentPtr := current.left.value;
          c, t := Left(c, t.ptr, t.key, t.value, t.height, t.right), t.left;
        case Greater =>
          if current.right.None? {
            return Some((path, Greater)), c, t;
          }
          DescendRight(c, t, key);
          currentPtr := current.right.value;
          c, t := Right(c, t.ptr, t.key, t.value, t.height, t.left), t.right;
        case Equal =>
          return Some((path, Equal)), c, t;
      }
    }

    method AddChild(parentPath: seq<Ptr>, ordering: Ordering, key: Key, value: EntryData, ghost c: Path, ghost t: Tree)
      returns (r: Result<(), StorageError>)
      requires Valid() && Plug(c, t) == tree && Found(c, t, key, parentPath, ordering) && ordering != Equal
      modifies this, storage`entries, storage`nodes, storage`root, storage.stream
      ensures Valid()
      ensures r.Err? <==> CannotStore(key, value, |old(storage.stream.data)|)
      ensures r.Err? ==> Unmodified(old(tree), old(storage.nodes), old(storage.entries))
      ensures r.Ok? ==> Inserted(old(tree), old(storage.nodes), old(storage.entries), tree, storage.nodes,
                                 storage.entries, Item(|old(storage.stream.data)|, key, value))
    {
      assert Sorted(Items(tree));
      hide DirectoryEntryStorage.Valid, Consistent, Relinked, SameListing, Inserted, Hanging, Grown, FitsAt,
           PathStored, PathUnshared, Avl, Stored, Unshared, Plug, Items, Ptrs, Before, After, Sorted, Fits, Pointers;
      assert Consistent(storage.root, storage.nodes, tree);
      ghost var d := FreeSide(c, t, ordering);
      FreeSideFits(c, t, key, parentPath, ordering);
      HoleIsFree(storage.root, storage.nodes, d);
      var parent := parentPath[|parentPath| - 1];
      var attached := AttachLeaf(parent, ordering, key, value, d);
      if attached.Err? {
        return Err(attached.error);
      }
      ghost var x := Item(attached.value, key, value);
      label Linked:
      LeafShape(d, x);
      tree := DoRetracing(parentPath, d, NewLeaf(x), 0);
      InsertionOutcome(old(tree), old(storage.nodes), old(storage.entries),
                       old@Linked(storage.nodes), old@Linked(storage.entries),
                       storage.root, tree, storage.nodes, storage.entries, d, x);
      return Ok(());
    }

    /** Stores the new node and points the parent's free side at it. */
    method AttachLeaf(parent: Ptr, ordering: Ordering, key: Key, value: EntryData, ghost c: Path)
      returns (r: Result<Ptr, StorageError>)
      requires storage.Valid() && !c.Top? && parent == c.ptr && ordering != Equal
      requires c.Left? <==> ordering == Less
      requires PathStored(storage.nodes, c, None) && PathUnshared(c, {}) && Avl(Plug(c, Leaf))
      modifies storage`entries, storage`nodes, storage.stream
      ensures storage.Valid()
      ensures r.Err? <==> CannotStore(key, value, |old(storage.stream.data)|)
      ensures r.Err? ==> storage.nodes == old(storage.nodes) && storage.entries == old(storage.entries)
      ensures r.Ok? ==> r.value == |old(storage.stream.data)| && r.value !in old(storage.nodes)
      ensures r.Ok? ==> Fits(NewNode(key, value))
      ensures r.Ok? ==> Hanging(storage.nodes, c, NewLeaf(Item(r.value, key, value)), None)
      ensures r.Ok? ==> Relinked(old(storage.nodes)[r.value := NewNode(key, value)], storage.nodes, {parent})
      ensures r.Ok? ==> SameListing(old(storage.entries) + [NewNode(key, value)], storage.entries)
    {
      hide DirectoryEntryStorage.Valid, Relinked, SameListing, Hanging, PathStored, PathUnshared, Avl, Plug;
      r := storage.Insert(NewNode(key, value));
      if r.Ok? {
        LinkLeaf(parent, r.value, ordering, c, Item(r.value, key, value), old(storage.nodes));
      }
    }

    /** Points the parent's free side at the new node. */
    method LinkLeaf(parent: Ptr, ptr: Ptr, ordering: Ordering, ghost c: Path, ghost x: Item,
                    ghost nodes0: map<nat, AvlNode>)
      requires storage.Valid() && !c.Top? && parent == c.ptr && ptr == x.ptr && ordering != Equal
      requires c.Left? <==> ordering == Less
      requires PathStored(nodes0, c, None) && PathUnshared(c, {}) && Avl(Plug(c, Leaf))
      requires x.ptr !in nodes0 && storage.nodes == nodes0[x.ptr := NewNode(x.key, x.value)]
      modifies storage`entries, storage`nodes, storage.stream
      ensures storage.Valid()
      ensures Hanging(storage.nodes, c, NewLeaf(x), None)
      ensures Relinked(old(storage.nodes), storage.nodes, {parent})
      ensures SameListing(old(storage.entries), storage.entries)
    {
      hide DirectoryEntryStorage.Valid;
      var parentNode := storage.LookUp(parent);
      if ordering == Less {
        assert parentNode.left.None?;
        parentNode := parentNode.(left := Some(ptr));
      } else {
        assert parentNode.right.None?;
        parentNode := parentNode.(right := Some(ptr));
      }
      HangLeaf(nodes0, c, x, parentNode);
      storage.Update(parent, parentNode);
    }

    // ----- The public operations

    /** Adds the entry unless the key is taken; fails, changing nothing, only if the node cannot be written. */
    method InsertIfNotExists(key: Key, value: EntryData) returns (r: Result<bool, StorageError>)
      requires Valid()
      modifies this, storage`entries, storage`nodes, storage`root, storage.stream
      ensures Valid()
      ensures r.Ok? ==> (r.value <==> !HasKey(old(Items(tree)), key))
      ensures r.Err? <==> !HasKey(old(Items(tree)), key) && CannotStore(key, value, |old(storage.stream.data)|)
      ensures r != Ok(true) ==> Unmodified(old(tree), old(storage.nodes), old(storage.entries))
      ensures r == Ok(true) ==> Inserted(old(tree), old(storage.nodes), old(storage.entries), tree, storage.nodes,
                                         storage.entries, Item(|old(storage.stream.data)|, key, value))
    {
      var found, c, t := BinarySearch(key);
      if found.Some? {
        var (path, ordering) := found.value;
        FoundDecides(c, t, key, path, ordering);
        if ordering == Equal {
          return Ok(false);
        }
        var added := AddChild(path, ordering, key, value, c, t);
        return if added.Ok? then Ok(true) else Err(added.error);
      }
      r := InsertFirst(key, value);
    }

    method InsertFirst(key: Key, value: EntryData) returns (r: Result<bool, StorageError>)
      requires Valid() && tree.Leaf?
      modifies this, storage`entries, storage`nodes, storage`root, storage.stream
      ensures Valid()
      ensures r.Err? <==> CannotStore(key, value, |old(storage.stream.data)|)
      ensures r.Err? ==> Unmodified(old(tree), old(storage.nodes), old(storage.entries))
      ensures r.Ok? ==> r.value && Inserted(old(tree), old(storage.nodes), old(storage.entries), tree, storage.nodes,
                                            storage.entries, Item(|old(storage.stream.data)|, key, value))
    {
      hide DirectoryEntryStorage.Valid, Inserted, Consistent;
      var inserted := storage.Insert(NewNode(key, value));
      if inserted.Err? {
        return Err(inserted.error);
      }
      storage.SetRoot(inserted.value);
      ghost var x := Item(inserted.value, key, value);
      FirstLeaf(old(storage.root), old(storage.nodes), old(storage.entries), x);
      tree := NewLeaf(x);
      return Ok(true);
    }

    /** The value stored for `key`, if any. */
    method Get(key: Key) returns (r: Option<EntryData>)
      requires Valid()
      modifies storage.stream`position
      ensures r == Find(Items(tree), key)
      ensures OnBoundary(storage.entries, storage.stream.position)
    {
      var found, c, t := BinarySearch(key);
      if found.None? {
        return None;
      }
      var (candidatePath, ordering) := found.value;
      FoundDecides(c, t, key, candidatePath, ordering);
      if ordering != Equal {
        return None;
      }
      PlugStored(storage.nodes, c, t);
      hide DirectoryEntryStorage.Valid, Plug, Avl, Unshared, Items, Before, After;
      var candidate := candidatePath[|candidatePath| - 1];
      var node := storage.LookUp(candidate);
      return Some(node.value);
    }

    /** Replaces the value of an existing key by one of the same encoded size, and touches nothing else. */
    method UpdateIfExists(key: Key, value: EntryData) returns (updated: bool)
      requires Valid()
      requires forall v :: Find(Items(tree), key) == Some(v) ==> ValueSize(value) == ValueSize(v)
      modifies this, storage`entries, storage`nodes, storage.stream
      ensures Valid()
      ensures updated <==> HasKey(old(Items(tree)), key)
      ensures !updated ==> Unmodified(old(tree), old(storage.nodes), old(storage.entries))
      ensures updated ==> Items(tree) == SetValue(old(Items(tree)), key, value)
      ensures updated ==> OnlyValueChanged(old(storage.nodes), storage.nodes, key, value)
      ensures |storage.stream.data| == |old(storage.stream.data)|
    {
      hide Sorted, Ptrs, OnlyValueChanged;
      var found, c, t := BinarySearch(key);
      if found.None? {
        return false;
      }
      var (candidatePath, ordering) := found.value;
      FoundDecides(c, t, key, candidatePath, ordering);
      if ordering != Equal {
        return false;
      }
      PlugStored(storage.nodes, c, t);
      hide DirectoryEntryStorage.Valid, Plug, Avl, Unshared, Items, Before, After;
      var candidate := candidatePath[|candidatePath| - 1];
      var node := storage.LookUp(candidate);
      node := node.(value := value);
      SetAt(storage.root, storage.nodes, c, t, value);
      storage.Update(candidate, node);
      tree := Plug(c, t.(value := value));
      return true;
    }
  }
}
