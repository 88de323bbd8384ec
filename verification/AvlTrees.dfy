/**
 The tree that a pointer store holds, as a value: its order, heights, balance and
 rotations, and the path from the root to a position in it. Every operation of
 `AvlTree` is specified by these functions.
 */
module AvlTrees {
  import opened Wrappers
  import opened DirectoryRecords
  import opened SortedItems

  /** `height` is the height recorded in the node, which may be out of date. */
  datatype Tree = Leaf | Node(ptr: Ptr, key: Key, value: EntryData, height: nat, left: Tree, right: Tree)

  function Root(t: Tree): Option<Ptr> {
    if t.Leaf? then None else Some(t.ptr)
  }

  function H(t: Tree): nat {
    if t.Leaf? then 0 else t.height
  }

  function Max(a: nat, b: nat): nat {
    if a > b then a else b
  }

  function ItemOf(t: Tree): Item
    requires t.Node?
  {
    Item(t.ptr, t.key, t.value)
  }

  function Items(t: Tree): seq<Item> {
    if t.Leaf? then [] else Items(t.left) + [ItemOf(t)] + Items(t.right)
  }

  ghost function Ptrs(t: Tree): set<Ptr> {
    if t.Leaf? then {} else {t.ptr} + Ptrs(t.left) + Ptrs(t.right)
  }

  function Size(t: Tree): nat {
    if t.Leaf? then 0 else 1 + Size(t.left) + Size(t.right)
  }

  // ----- Invariants

  /** Every recorded height is right and the two sides differ by at most one. */
  ghost predicate Avl(t: Tree) {
    t.Node? ==>
      && Avl(t.left) && Avl(t.right)
      && t.height == 1 + Max(H(t.left), H(t.right))
      && -1 <= H(t.right) - H(t.left) <= 1
  }

  /** No pointer occurs twice. */
  ghost predicate Unshared(t: Tree) {
    t.Node? ==>
      && Unshared(t.left) && Unshared(t.right)
      && t.ptr !in Ptrs(t.left) && t.ptr !in Ptrs(t.right)
      && Ptrs(t.left) !! Ptrs(t.right)
  }

  ghost predicate Holds(n: AvlNode, t: Tree)
    requires t.Node?
  {
    && n.key == t.key && n.value == t.value && n.height == t.height
    && n.left == Root(t.left) && n.right == Root(t.right)
  }

  /** The store holds the nodes of `t`, linked as in `t`. */
  ghost predicate Stored(nodes: map<nat, AvlNode>, t: Tree) {
    t.Node? ==>
      && t.ptr in nodes && Holds(nodes[t.ptr], t)
      && Stored(nodes, t.left) && Stored(nodes, t.right)
  }

  ghost predicate SameOutside(nodes: map<nat, AvlNode>, nodes': map<nat, AvlNode>, ptrs: set<Ptr>) {
    forall p: Ptr :: p in nodes && p !in ptrs ==> p in nodes' && nodes'[p] == nodes[p]
  }

  lemma {:induction false} StoredFrame(nodes: map<nat, AvlNode>, nodes': map<nat, AvlNode>, t: Tree, ptrs: set<Ptr>)
    requires Stored(nodes, t) && SameOutside(nodes, nodes', ptrs) && Ptrs(t) !! ptrs
    ensures Stored(nodes', t)
  {
    if t.Leaf? {
    } else {
      StoredFrame(nodes, nodes', t.left, ptrs);
      StoredFrame(nodes, nodes', t.right, ptrs);
    }
  }

  // ----- Rotations

  function Fix(t: Tree): Tree
    requires t.Node?
  {
    t.(height := 1 + Max(H(t.left), H(t.right)))
  }

  function RotateLeft(t: Tree): Tree
    requires t.Node? && t.right.Node?
  {
    Fix(t.right.(left := Fix(t.(right := t.right.left))))
  }

  function RotateRight(t: Tree): Tree
    requires t.Node? && t.left.Node?
  {
    Fix(t.left.(right := Fix(t.(left := t.left.right))))
  }

  function Balance(t: Tree): int
    requires t.Node?
  {
    H(t.right) - H(t.left)
  }

  function Rebalance(t: Tree): Tree
    requires t.Node? && (if Balance(t) > 0 then t.right.Node? else t.left.Node?)
    requires Balance(t) > 0 && Balance(t.right) < 0 ==> t.right.left.Node?
    requires Balance(t) <= 0 && Balance(t.left) > 0 ==> t.left.right.Node?
  {
    if Balance(t) > 0 then
      if Balance(t.right) < 0 then RotateLeft(t.(right := RotateRight(t.right))) else RotateLeft(t)
    else
      if Balance(t.left) > 0 then RotateRight(t.(left := RotateLeft(t.left))) else RotateRight(t)
  }

  /** A node whose subtrees are in order and whose balance is off by at most one step. */
  ghost predicate NearlyAvl(t: Tree) {
    && t.Node? && Avl(t.left) && Avl(t.right)
    && -2 <= Balance(t) <= 2
  }

  function Retrace(t: Tree): Tree
    requires NearlyAvl(t)
  {
    if -1 <= Balance(t) <= 1 then Fix(t) else Rebalance(t)
  }

  /** The same entries, held by the same pointers, in the same order. */
  ghost predicate SameEntries(t: Tree, t': Tree) {
    && Items(t') == Items(t) && Ptrs(t') == Ptrs(t)
    && (Unshared(t) ==> Unshared(t'))
  }

  lemma {:induction false} Join(ptr: Ptr, key: Key, value: EntryData, height: nat, left: Tree, right: Tree)
    ensures
      var t := Node(ptr, key, value, height, left, right);
      && Items(t) == Items(left) + [Item(ptr, key, value)] + Items(right)
      && Ptrs(t) == {ptr} + Ptrs(left) + Ptrs(right)
      && (Unshared(t) <==>
          && Unshared(left) && Unshared(right)
          && ptr !in Ptrs(left) && ptr !in Ptrs(right) && Ptrs(left) !! Ptrs(right))
  {
  }

  lemma RotateLeftEntries(t: Tree)
    requires t.Node? && t.right.Node?
    ensures SameEntries(t, RotateLeft(t))
  {
    var r := t.right;
    var down := Fix(t.(right := r.left));
    var up := Fix(r.(left := down));
    Join(r.ptr, r.key, r.value, r.height, r.left, r.right);
    Join(t.ptr, t.key, t.value, t.height, t.left, r);
    Join(t.ptr, t.key, t.value, down.height, t.left, r.left);
    Join(r.ptr, r.key, r.value, up.height, down, r.right);
  }

  lemma RotateRightEntries(t: Tree)
    requires t.Node? && t.left.Node?
    ensures SameEntries(t, RotateRight(t))
  {
    var l := t.left;
    var down := Fix(t.(left := l.right));
    var up := Fix(l.(right := down));
    Join(l.ptr, l.key, l.value, l.height, l.left, l.right);
    Join(t.ptr, t.key, t.value, t.height, l, t.right);
    Join(t.ptr, t.key, t.value, down.height, l.right, t.right);
    Join(l.ptr, l.key, l.value, up.height, l.left, down);
  }

  lemma RetraceEntries(t: Tree)
    requires NearlyAvl(t)
    ensures SameEntries(t, Retrace(t))
  {
    if Balance(t) > 1 {
      if Balance(t.right) < 0 {
        var u := t.(right := RotateRight(t.right));
        RotateRightEntries(t.right);
        assert SameEntries(t, u);
        RotateLeftEntries(u);
      } else {
        RotateLeftEntries(t);
      }
    } else if Balance(t) < -1 {
      if Balance(t.left) > 0 {
        var u := t.(left := RotateLeft(t.left));
        RotateLeftEntries(t.left);
        assert SameEntries(t, u);
        RotateRightEntries(u);
      } else {
        RotateRightEntries(t);
      }
    }
  }

  /** Retracing restores balance and grows a node by at most one over its taller side. */
  lemma RetraceBalances(t: Tree)
    requires NearlyAvl(t)
    ensures Avl(Retrace(t))
    ensures Max(H(t.left), H(t.right)) <= H(Retrace(t)) <= 1 + Max(H(t.left), H(t.right))
    ensures -1 <= Balance(t) <= 1 ==> H(Retrace(t)) == 1 + Max(H(t.left), H(t.right))
  {
    if Balance(t) > 1 {
      if Balance(t.right) < 0 {
        RotateRightLeftBalances(t);
      } else {
        RotateLeftBalances(t);
      }
    } else if Balance(t) < -1 {
      if Balance(t.left) > 0 {
        RotateLeftRightBalances(t);
      } else {
        RotateRightBalances(t);
      }
    }
  }

  lemma RotateLeftBalances(t: Tree)
    requires NearlyAvl(t) && Balance(t) == 2 && Balance(t.right) >= 0
    ensures Avl(RotateLeft(t)) && H(t.right) <= H(RotateLeft(t)) <= 1 + H(t.right)
  {
    var r := t.right;
    var down := Fix(t.(right := r.left));
    assert Avl(down);
    assert RotateLeft(t) == Fix(r.(left := down));
  }

  lemma RotateRightBalances(t: Tree)
    requires NearlyAvl(t) && Balance(t) == -2 && Balance(t.left) <= 0
    ensures Avl(RotateRight(t)) && H(t.left) <= H(RotateRight(t)) <= 1 + H(t.left)
  {
    var l := t.left;
    var down := Fix(t.(left := l.right));
    assert Avl(down);
    assert RotateRight(t) == Fix(l.(right := down));
  }

  lemma RotateRightLeftBalances(t: Tree)
    requires NearlyAvl(t) && Balance(t) == 2 && Balance(t.right) < 0
    ensures t.right.left.Node?
    ensures
      var t' := RotateLeft(t.(right := RotateRight(t.right)));
      Avl(t') && H(t') == H(t.right)
  {
    var r, m := t.right, t.right.left;
    var a, b := Fix(t.(right := m.left)), Fix(r.(left := m.right));
    assert Avl(m);
    assert Avl(a) && Avl(b);
    assert RotateRight(r) == Fix(m.(right := b));
    assert RotateLeft(t.(right := RotateRight(r))) == Fix(m.(left := a, right := b));
  }

  lemma RotateLeftRightBalances(t: Tree)
    requires NearlyAvl(t) && Balance(t) == -2 && Balance(t.left) > 0
    ensures t.left.right.Node?
    ensures
      var t' := RotateRight(t.(left := RotateLeft(t.left)));
      Avl(t') && H(t') == H(t.left)
  {
    var l, m := t.left, t.left.right;
    var a, b := Fix(l.(right := m.left)), Fix(t.(left := m.right));
    assert Avl(m);
    assert Avl(a) && Avl(b);
    assert RotateLeft(l) == Fix(m.(left := a));
    assert RotateRight(t.(left := RotateLeft(l))) == Fix(m.(left := a, right := b));
  }

  // ----- How high a tree can be

  /** Two consecutive Fibonacci numbers. */
  function FibPair(n: nat): (r: (nat, nat))
    ensures r.0 <= r.1
  {
    if n == 0 then (0, 1) else (FibPair(n - 1).1, FibPair(n - 1).0 + FibPair(n - 1).1)
  }

  function Fib(n: nat): nat {
    FibPair(n).0
  }

  lemma FibStep(n: nat)
    ensures Fib(n) <= Fib(n + 1) && Fib(n + 2) == Fib(n + 1) + Fib(n)
  {
    assert Fib(n + 1) == FibPair(n).1;
    assert FibPair(n + 1).1 == FibPair(n).0 + FibPair(n).1;
  }

  lemma {:induction false} FibGrows(m: nat, n: nat)
    requires m <= n
    ensures Fib(m) <= Fib(n)
    decreases n - m
  {
    if m == n {
    } else {
      FibStep(m);
      FibGrows(m + 1, n);
    }
  }

  /** A balanced tree of height `h` has at least `Fib(h + 2) - 1` nodes. */
  lemma {:induction false} MinimalSize(t: Tree)
    requires Avl(t)
    ensures Size(t) + 1 >= Fib(H(t) + 2)
  {
    if t.Leaf? {
      assert Fib(2) == 1;
    } else {
      MinimalSize(t.left);
      MinimalSize(t.right);
      var h, shorter := t.height, if H(t.left) < H(t.right) then H(t.left) else H(t.right);
      FibGrows(h, shorter + 2);
      FibStep(h);
    }
  }

  /** Ten steps at once: 34, 55 and 89 are the ninth to eleventh Fibonacci numbers. */
  lemma FibTenSteps(n: nat)
    ensures FibPair(n + 10) == (34 * Fib(n) + 55 * FibPair(n).1, 55 * Fib(n) + 89 * FibPair(n).1)
  {
    FibFiveSteps(n);
    FibFiveSteps(n + 5);
  }

  lemma FibFiveSteps(n: nat)
    ensures FibPair(n + 5) == (3 * Fib(n) + 5 * FibPair(n).1, 5 * Fib(n) + 8 * FibPair(n).1)
  {
    assert FibPair(n + 1).1 == Fib(n) + FibPair(n).1;
    assert FibPair(n + 2).1 == Fib(n) + 2 * FibPair(n).1;
    assert FibPair(n + 3).1 == 2 * Fib(n) + 3 * FibPair(n).1;
    assert FibPair(n + 4).1 == 3 * Fib(n) + 5 * FibPair(n).1;
  }

  lemma {:induction false} FibTens(k: nat, n: nat) returns (low: nat, high: nat)
    requires n == 10 * k
    ensures FibPair(n) == (low, high)
    ensures k == 9 ==> low == 2880067194370816120 && high == 4660046610375530309
  {
    low, high := 0, 1;
    for i := 0 to k
      invariant FibPair(10 * i) == (low, high)
      invariant i == 1 ==> low == 55 && high == 89
      invariant i == 2 ==> low == 6765 && high == 10946
      invariant i == 3 ==> low == 832040 && high == 1346269
      invariant i == 4 ==> low == 102334155 && high == 165580141
      invariant i == 5 ==> low == 12586269025 && high == 20365011074
      invariant i == 6 ==> low == 1548008755920 && high == 2504730781961
      invariant i == 7 ==> low == 190392490709135 && high == 308061521170129
      invariant i == 8 ==> low == 23416728348467685 && high == 37889062373143906
      invariant i == 9 ==> low == 2880067194370816120 && high == 4660046610375530309
    {
      FibTenSteps(10 * i);
      low, high := 34 * low + 55 * high, 55 * low + 89 * high;
    }
  }

  lemma Fib94(n: nat)
    requires n == 94
    ensures Fib(n) == 19740274219868223167
  {
    var low, high := FibTens(9, n - 4);
    FibStep(n - 4);
    FibStep(n - 3);
    FibStep(n - 2);
  }

  const MAX_HEIGHT: nat := 91

  /** With fewer than 2^64 nodes the height is at most 91. */
  lemma {:induction false} HeightBound(t: Tree)
    requires Avl(t) && Size(t) < 0x1_0000_0000_0000_0000
    ensures H(t) <= MAX_HEIGHT
  {
    hide FibPair, Fib;
    MinimalSize(t);
    if H(t) > MAX_HEIGHT {
      var n := 94;
      FibGrows(n, H(t) + 2);
      Fib94(n);
    }
  }

  lemma {:induction false} SizeIsPtrs(t: Tree)
    requires Unshared(t)
    ensures Size(t) == |Ptrs(t)|
  {
    if t.Leaf? {
    } else {
      SizeIsPtrs(t.left);
      SizeIsPtrs(t.right);
      assert |{t.ptr} + Ptrs(t.left)| == 1 + |Ptrs(t.left)|;
    }
  }

  lemma {:induction false} StoredPtrs(nodes: map<nat, AvlNode>, t: Tree)
    requires Stored(nodes, t)
    ensures forall p :: p in Ptrs(t) ==> p in nodes
  {
    if t.Leaf? {
    } else {
      StoredPtrs(nodes, t.left);
      StoredPtrs(nodes, t.right);
    }
  }

  // ----- Positions: the path from the root down to a hole

  /** The ancestors of a position, nearest first, each with the subtree on its other side. */
  datatype Path =
    | Top
    | Left(up: Path, ptr: Ptr, key: Key, value: EntryData, height: nat, other: Tree)
    | Right(up: Path, ptr: Ptr, key: Key, value: EntryData, height: nat, other: Tree)

  /** The nearest ancestor with `t` in the hole. */
  function Refill(c: Path, t: Tree): (r: Tree)
    requires !c.Top?
    ensures r.Node?
  {
    if c.Left? then Node(c.ptr, c.key, c.value, c.height, t, c.other)
    else Node(c.ptr, c.key, c.value, c.height, c.other, t)
  }

  function Plug(c: Path, t: Tree): Tree {
    if c.Top? then t else Plug(c.up, Refill(c, t))
  }

  /** The pointers on the way down, root first. */
  function Pointers(c: Path): (r: seq<Ptr>) {
    if c.Top? then [] else Pointers(c.up) + [c.ptr]
  }

  function Before(c: Path): seq<Item> {
    match c
    case Top => []
    case Left(up, _, _, _, _, _) => Before(up)
    case Right(up, ptr, key, value, _, other) => Before(up) + (Items(other) + [Item(ptr, key, value)])
  }

  function After(c: Path): seq<Item> {
    match c
    case Top => []
    case Left(up, ptr, key, value, _, other) => ([Item(ptr, key, value)] + Items(other)) + After(up)
    case Right(up, _, _, _, _, _) => After(up)
  }

  lemma {:induction false} PlugItems(c: Path, t: Tree)
    ensures Items(Plug(c, t)) == Before(c) + Items(t) + After(c)
  {
    if c.Top? {
    } else {
      var u := Refill(c, t);
      PlugItems(c.up, u);
      var a, b := Before(c.up), After(c.up);
      if c.Left? {
        var right := [ItemOf(u)] + Items(c.other);
        Regroup(a, [], Items(t), right, b);
        assert Items(u) == [] + Items(t) + right && a + [] == a;
      } else {
        var left := Items(c.other) + [ItemOf(u)];
        Regroup(a, left, Items(t), [], b);
        assert Items(u) == left + Items(t) + [] && [] + b == b;
      }
    }
  }

  lemma Regroup(a: seq<Item>, l: seq<Item>, m: seq<Item>, r: seq<Item>, b: seq<Item>)
    ensures a + (l + m + r) + b == (a + l) + m + (r + b)
  {
  }

  /** The ancestors are stored, and the nearest one points at `hole`. */
  ghost predicate PathStored(nodes: map<nat, AvlNode>, c: Path, hole: Option<Ptr>) {
    !c.Top? ==>
      && c.ptr in nodes && Stored(nodes, c.other)
      && HoldsPath(nodes[c.ptr], c, hole)
      && PathStored(nodes, c.up, Some(c.ptr))
  }

  ghost predicate HoldsPath(n: AvlNode, c: Path, hole: Option<Ptr>)
    requires !c.Top?
  {
    && n.key == c.key && n.value == c.value && n.height == c.height
    && n.left == (if c.Left? then hole else Root(c.other))
    && n.right == (if c.Left? then Root(c.other) else hole)
  }

  lemma {:induction false} PlugStored(nodes: map<nat, AvlNode>, c: Path, t: Tree)
    ensures Stored(nodes, Plug(c, t)) <==> PathStored(nodes, c, Root(t)) && Stored(nodes, t)
  {
    if c.Top? {
    } else {
      PlugStored(nodes, c.up, Refill(c, t));
    }
  }

  /** No pointer occurs twice among the ancestors, their other sides and `below`. */
  ghost predicate PathUnshared(c: Path, below: set<Ptr>) {
    !c.Top? ==>
      && c.ptr !in below && c.ptr !in Ptrs(c.other) && Ptrs(c.other) !! below
      && Unshared(c.other)
      && PathUnshared(c.up, {c.ptr} + below + Ptrs(c.other))
  }

  lemma {:induction false} RefillPtrs(c: Path, t: Tree)
    requires !c.Top?
    ensures Ptrs(Refill(c, t)) == {c.ptr} + Ptrs(t) + Ptrs(c.other)
  {
  }

  lemma {:induction false} PlugUnshared(c: Path, t: Tree)
    ensures Unshared(Plug(c, t)) <==> Unshared(t) && PathUnshared(c, Ptrs(t))
  {
    if c.Top? {
    } else {
      RefillPtrs(c, t);
      PlugUnshared(c.up, Refill(c, t));
    }
  }

  lemma {:induction false} PathStoredFrame(nodes: map<nat, AvlNode>, nodes': map<nat, AvlNode>, c: Path,
                                           hole: Option<Ptr>, below: set<Ptr>)
    requires PathStored(nodes, c, hole) && PathUnshared(c, below) && SameOutside(nodes, nodes', below)
    ensures PathStored(nodes', c, hole)
  {
    if c.Top? {
    } else {
      StoredFrame(nodes, nodes', c.other, below);
      PathStoredFrame(nodes, nodes', c.up, Some(c.ptr), {c.ptr} + below + Ptrs(c.other));
    }
  }

  /** The ancestors are balanced and have right heights for a hole of height `h`. */
  ghost predicate PathAvl(c: Path, h: nat) {
    !c.Top? ==>
      && Avl(c.other)
      && -1 <= h - H(c.other) <= 1
      && c.height == 1 + Max(h, H(c.other))
      && PathAvl(c.up, c.height)
  }

  lemma {:induction false} PlugAvl(c: Path, t: Tree)
    ensures Avl(Plug(c, t)) <==> Avl(t) && PathAvl(c, H(t))
  {
    if c.Top? {
    } else {
      PlugAvl(c.up, Refill(c, t));
    }
  }

  /** Every ancestor adds at least one to the recorded height. */
  lemma {:induction false} PathHeight(c: Path, t: Tree)
    requires Avl(Plug(c, t))
    ensures |Pointers(c)| + H(t) <= H(Plug(c, t))
  {
    PlugAvl(c, t);
    if c.Top? {
    } else {
      PathHeight(c.up, Refill(c, t));
    }
  }

  lemma {:induction false} PlugPtrs(c: Path, t: Tree)
    ensures forall p :: p in Ptrs(t) || p in Pointers(c) ==> p in Ptrs(Plug(c, t))
  {
    if c.Top? {
    } else {
      PlugPtrs(c.up, Refill(c, t));
      RefillPtrs(c, t);
    }
  }
}
