/** Reading and writing directory contents files (`dir.rs`). */
module Directories {
  import opened Wrappers
  import opened DirectoryRecords
  import opened ByteStreams
  import opened DirectoryStorage
  import opened SortedItems
  import opened AvlTrees
  import opened AvlTreeOperations
  import opened AvlTreeIteration

  // ----- The unordered stream

  /** What is yielded from record `i` on: each entry with the offset to resume after it. */
  function StreamFrom(es: seq<Record>, i: nat): (r: seq<(nat, AvlNode)>)
    requires i <= |es|
    ensures |r| == |es| - i
    decreases |es| - i
  {
    if i == |es| then [] else [(Offset(es, i + 1) - HEADER_SIZE, es[i])] + StreamFrom(es, i + 1)
  }

  /** Resuming at the offset yielded with the `k`th entry gives exactly the entries after it. */
  lemma {:induction false} Resume(es: seq<Record>, i: nat, k: nat)
    requires i <= |es| && k < |StreamFrom(es, i)|
    ensures StreamFrom(es, i)[k] == (Offset(es, i + k + 1) - HEADER_SIZE, es[i + k])
    ensures StreamFrom(es, i)[k + 1..] == StreamFrom(es, i + k + 1)
    decreases k
  {
    if k == 0 {
    } else {
      Resume(es, i + 1, k - 1);
      assert StreamFrom(es, i)[k + 1..] == StreamFrom(es, i + 1)[k..];
    }
  }

  lemma {:induction false} OffsetsIncrease(es: seq<Record>, i: nat, j: nat)
    requires i < j <= |es|
    ensures Offset(es, i) < Offset(es, j)
    decreases j
  {
    OffsetStep(es, j - 1);
    if i == j - 1 {
    } else {
      OffsetsIncrease(es, i, j - 1);
    }
  }

  /** Both streams list the same entries: every record is an item of the tree, and conversely. */
  lemma {:induction false} StreamsAgree(root: Option<Ptr>, es: seq<Record>, t: Tree)
    requires Consistent(root, NodeMap(es), t)
    ensures forall i :: 0 <= i < |es| ==> Find(Items(t), es[i].key) == Some(es[i].value)
    ensures forall key: Key :: HasKey(Items(t), key) ==> exists i :: 0 <= i < |es| && es[i].key == key
    ensures |Items(t)| == |es|
  {
    forall i | 0 <= i < |es| ensures Find(Items(t), es[i].key) == Some(es[i].value) {
      OffsetsAreNodes(es, i);
      RecordIsItem(NodeMap(es), t, Offset(es, i));
    }
    forall key: Key | HasKey(Items(t), key) ensures exists i :: 0 <= i < |es| && es[i].key == key {
      var j :| 0 <= j < |Items(t)| && Items(t)[j].key == key;
      ItemIsStored(NodeMap(es), t, j);
      var i := IndexOf(es, Items(t)[j].ptr);
      assert es[i].key == key;
    }
    NodeCount(es);
    SizeIsPtrs(t);
    StoredPtrs(NodeMap(es), t);
    assert Ptrs(t) == NodeMap(es).Keys;
    ItemCount(t);
  }

  lemma {:induction false} RecordIsItem(nodes: map<nat, AvlNode>, t: Tree, p: Ptr)
    requires Stored(nodes, t) && Sorted(Items(t)) && p in nodes && p in Ptrs(t)
    ensures Find(Items(t), nodes[p].key) == Some(nodes[p].value)
  {
    var j := ItemHeldBy(nodes, t, p);
    ItemIsStored(nodes, t, j);
    FindAt(Items(t), j);
  }

  lemma {:induction false} ItemIsStored(nodes: map<nat, AvlNode>, t: Tree, j: nat)
    requires Stored(nodes, t) && j < |Items(t)|
    ensures
      var x := Items(t)[j];
      x.ptr in nodes && nodes[x.ptr].key == x.key && nodes[x.ptr].value == x.value
  {
    var n := |Items(t.left)|;
    if j < n {
      ItemIsStored(nodes, t.left, j);
    } else if j > n {
      ItemIsStored(nodes, t.right, j - n - 1);
    }
  }

  lemma {:induction false} ItemCount(t: Tree)
    ensures |Items(t)| == Size(t)
  {
    if t.Leaf? {
    } else {
      ItemCount(t.left);
      ItemCount(t.right);
    }
  }

  // ----- Reading

  class DirectoryDataReader {
    const storage: DirectoryEntryStorage
    const entryBegin: nat
    const length: nat
    ghost const tree: Tree

    ghost predicate Valid()
      reads this, storage, storage.stream
    {
      && storage.Valid() && Consistent(storage.root, storage.nodes, tree)
      && entryBegin == HEADER_SIZE && length == |storage.stream.data|
      && OnBoundary(storage.entries, storage.stream.position)
    }

    /** Opens a file that holds the tree `tree`. */
    constructor (stream: ByteStream, ghost root: Option<Ptr>, ghost entries: seq<Record>, ghost tree: Tree)
      requires stream.data == FileBytes(root, entries) && |stream.data| <= MAX_FILE_SIZE && stream.position == 0
      requires Consistent(root, NodeMap(entries), tree)
      modifies stream`position
      ensures Valid() && storage.stream == stream && storage.entries == entries && this.tree == tree
      ensures stream.position == Offset(entries, 0)
    {
      var file := new DirectoryEntryStorage(stream, root, entries);
      length := |stream.data|;
      this.tree := tree;
      DecodeHeaderInverts(root, EncodeAll(entries));
      var header := DecodeHeaderFrom(stream);
      entryBegin := stream.position;
      storage := file;
      new;
      assert Offset(entries, 0) == HEADER_SIZE;
    }

    method LookUpEntry(entryName: Key) returns (r: Option<EntryData>)
      requires Valid()
      modifies storage.stream`position
      ensures Valid()
      ensures r == Find(Items(tree), entryName)
    {
      var t := new AvlTree(storage, tree);
      r := t.Get(entryName);
    }

    /** The id of a file entry; a whiteout has none. */
    method LookUp(entryName: Key) returns (r: Option<FileId>)
      requires Valid()
      modifies storage.stream`position
      ensures Valid()
      ensures forall id :: r == Some(id) <==>
                exists d :: Find(Items(tree), entryName) == Some(File(d)) && d.fileId == id
    {
      var entry := LookUpEntry(entryName);
      match entry {
        case Some(File(d)) => r := Some(d.fileId);
        case _ => r := None;
      }
    }

    /** With the cursor before record `i`: that record, and the offset just past it. */
    method NextEntry(ghost i: nat) returns (r: Option<(nat, AvlNode)>)
      requires Valid() && i <= |storage.entries| && storage.stream.position == Offset(storage.entries, i)
      modifies storage.stream`position
      ensures Valid()
      ensures r.None? <==> i == |storage.entries|
      ensures r.Some? ==> r.value == StreamFrom(storage.entries, i)[0]
      ensures r.Some? ==> storage.stream.position == Offset(storage.entries, i + 1)
    {
      hide EncodeRecord, DecodeRecord, EncodeHeader, Consistent;
      ghost var es := storage.entries;
      assert es[..|es|] == es;
      if storage.stream.position == length {
        if i < |es| { OffsetsIncrease(es, i, |es|); }
        return None;
      }
      DecodeAt(storage.root, es, i);
      var entry := DecodeNodeFrom(storage.stream);
      assert |storage.stream.data[storage.stream.position..]| == |storage.stream.data[Offset(es, i + 1)..]|;
      var offset := storage.stream.position - entryBegin;
      return Some((offset, entry));
    }

    /** `into_stream(offset)` read to its end, for the offset of record `i`. */
    method ReadFrom(offset: nat, ghost i: nat) returns (r: seq<(nat, AvlNode)>)
      requires Valid() && i <= |storage.entries| && HEADER_SIZE + offset == Offset(storage.entries, i)
      modifies storage.stream`position
      ensures Valid()
      ensures r == StreamFrom(storage.entries, i)
    {
      hide DirectoryEntryStorage.Valid, Consistent;
      storage.stream.Seek(entryBegin + offset);
      r := [];
      ghost var j := i;
      while true
        invariant Valid() && i <= j <= |storage.entries|
        invariant storage.stream.position == Offset(storage.entries, j)
        invariant r + StreamFrom(storage.entries, j) == StreamFrom(storage.entries, i)
        decreases |storage.entries| - j
      {
        var next := NextEntry(j);
        if next.None? {
          return;
        }
        r := r + [next.value];
        j := j + 1;
      }
    }

    /** `into_ordered_stream` read to its end: the same entries, in the order of their names. */
    method ReadInOrder() returns (r: seq<(Key, EntryData)>)
      requires Valid()
      modifies storage.stream`position
      ensures r == Listing(Items(tree)) && Sorted(Items(tree)) && InNameOrder(r)
    {
      var t := new AvlTree(storage, tree);
      r := ReadOrdered(t);
    }
  }

  // ----- Writing

  lemma {:induction false} FileSize(root: Option<Ptr>, es: seq<Record>)
    ensures |FileBytes(root, es)| == HEADER_SIZE + TotalSize(es)
  {
  }

  datatype SetOpaqueError = Nonexistent | IsWhiteout | NotADirectory

  class DirectoryDataWriter {
    const tree: AvlTree

    ghost predicate Valid()
      reads this, tree, tree.storage, tree.storage.stream`data
    {
      tree.Valid()
    }

    /** The directory's entries in the order of their names. */
    ghost function Entries(): seq<Item>
      reads this, tree
    {
      Items(tree.tree)
    }

    /** Creates the file with an empty tree. */
    constructor Create(stream: ByteStream)
      requires stream.data == [] && stream.position == 0
      modifies stream
      ensures Valid() && fresh(tree) && fresh(tree.storage) && tree.storage.stream == stream
      ensures Entries() == [] && tree.storage.entries == [] && |stream.data| == HEADER_SIZE
    {
      var ok := stream.WriteAll(EncodeHeader(None));
      assert FileBytes(None, []) == EncodeHeader(None) + [] == stream.data;
      var storage := new DirectoryEntryStorage(stream, None, []);
      tree := new AvlTree(storage, Leaf);
    }

    /** Reopens a file that holds the tree `tree`. */
    constructor Open(stream: ByteStream, ghost root: Option<Ptr>, ghost entries: seq<Record>, ghost t: Tree)
      requires stream.data == FileBytes(root, entries) && |stream.data| <= MAX_FILE_SIZE
      requires Consistent(root, NodeMap(entries), t)
      ensures Valid() && fresh(tree) && fresh(tree.storage) && tree.storage.stream == stream
      ensures Entries() == Items(t) && tree.storage.entries == entries
    {
      var storage := new DirectoryEntryStorage(stream, root, entries);
      tree := new AvlTree(storage, t);
    }

    method LookUpEntry(entryName: Key) returns (r: Option<EntryData>)
      requires Valid()
      modifies tree.storage.stream`position
      ensures r == Find(Entries(), entryName)
    {
      r := tree.Get(entryName);
    }

    method InsertEntry(entryName: Key, entryData: EntryData) returns (r: Result<bool, StorageError>)
      requires Valid()
      modifies tree, tree.storage, tree.storage.stream
      ensures Valid()
      ensures r.Ok? ==> (r.value <==> Find(old(Entries()), entryName) == None)
      ensures r == Ok(true) ==>
                Entries() == InsertItem(old(Entries()), Item(|old(tree.storage.stream.data)|, entryName, entryData))
      ensures r != Ok(true) ==> Entries() == old(Entries())
      ensures r.Err? <==> Find(old(Entries()), entryName) == None
                          && CannotStore(entryName, entryData, |old(tree.storage.stream.data)|)
      ensures r.Err? ==> tree.storage.stream.data == old(tree.storage.stream.data)
      ensures |tree.storage.stream.data|
           == |old(tree.storage.stream.data)| + (if r == Ok(true) then RecordSize(NewNode(entryName, entryData)) else 0)
    {
      FindAbsent(Entries(), entryName);
      ghost var size, entries := |tree.storage.stream.data|, tree.storage.entries;
      FileSize(tree.storage.root, entries);
      r := tree.InsertIfNotExists(entryName, entryData);
      FileSize(tree.storage.root, tree.storage.entries);
      if r == Ok(true) {
        SameListingSize(entries + [NewNode(entryName, entryData)], tree.storage.entries);
        assert (entries + [NewNode(entryName, entryData)])[..|entries|] == entries;
      }
    }

    /** Sets a directory's opaque flag: an overwrite of the same size, so no other entry is disturbed. */
    method SetOpaqueDir(entryName: Key, opaqueDir: bool) returns (r: Result<(), SetOpaqueError>)
      requires Valid()
      modifies tree, tree.storage, tree.storage.stream
      ensures Valid()
      ensures r == match Find(old(Entries()), entryName)
                   case None => Err(Nonexistent)
                   case Some(Whiteout) => Err(IsWhiteout)
                   case Some(File(d)) => if d.kind == Directory then Ok(()) else Err(NotADirectory)
      ensures r.Err? ==> Entries() == old(Entries())
      ensures r.Ok? ==>
                var d := Find(old(Entries()), entryName).value.data;
                Entries() == SetValue(old(Entries()), entryName, File(d.(opaqueDir := opaqueDir)))
      ensures |tree.storage.stream.data| == |old(tree.storage.stream.data)|
    {
      FindAbsent(Entries(), entryName);
      var entry := LookUpEntry(entryName);
      if entry.None? {
        return Err(Nonexistent);
      }
      if entry.value.Whiteout? {
        return Err(IsWhiteout);
      }
      var data := entry.value.data;
      if data.kind != Directory {
        return Err(NotADirectory);
      }
      data := data.(opaqueDir := opaqueDir);
      var updated := tree.UpdateIfExists(entryName, File(data));
      assert updated;
      return Ok(());
    }
  }
}
