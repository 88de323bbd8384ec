/**
 Whole runs of a directory file (`dir.rs` over `avl.rs`): whatever is written, in whatever
 order, reading the bytes back gives the directory as a map from names to data.
 */
module DirectoryRuns {
  import opened Wrappers
  import opened DirectoryRecords
  import opened ByteStreams
  import opened DirectoryStorage
  import opened SortedItems
  import opened KeyOrder
  import opened AvlTrees
  import opened AvlTreeOperations
  import opened AvlTreeIteration
  import opened Directories

  datatype Write = Insert(name: Key, entry: EntryData) | SetOpaque(name: Key, opaqueDir: bool)

  type Listed = map<Key, EntryData>

  /** One write: the first insertion of a name stands, and only directories can be made opaque. */
  function Apply(m: Listed, w: Write): Listed {
    match w
    case Insert(name, entry) => if name in m then m else m[name := entry]
    case SetOpaque(name, opaqueDir) =>
      if name in m && m[name].File? && m[name].data.kind == Directory
      then m[name := File(m[name].data.(opaqueDir := opaqueDir))] else m
  }

  function ApplyAll(writes: seq<Write>): Listed {
    if writes == [] then map[] else Apply(ApplyAll(writes[..|writes| - 1]), writes[|writes| - 1])
  }

  /** The write adds a record: it inserts a name that is free. */
  predicate AddsRecord(m: Listed, w: Write) {
    w.Insert? && w.name !in m
  }

  /** The size of the file after some writes. */
  function SizeAfter(writes: seq<Write>): nat {
    if writes == [] then HEADER_SIZE
    else
      var front, w := writes[..|writes| - 1], writes[|writes| - 1];
      SizeAfter(front) + if AddsRecord(ApplyAll(front), w) then RecordSize(NewNode(w.name, w.entry)) else 0
  }

  /** Every record that the writes add can be encoded and fits the file. */
  predicate Storable(writes: seq<Write>) {
    writes == [] ||
    var front, w := writes[..|writes| - 1], writes[|writes| - 1];
    Storable(front) && (AddsRecord(ApplyAll(front), w) ==> !CannotStore(w.name, w.entry, SizeAfter(front)))
  }

  lemma {:induction false} StorablePrefix(writes: seq<Write>, i: nat)
    requires Storable(writes) && i <= |writes|
    ensures Storable(writes[..i])
  {
    if i == |writes| {
      assert writes[..i] == writes;
    } else {
      assert writes[..|writes| - 1][..i] == writes[..i];
      StorablePrefix(writes[..|writes| - 1], i);
    }
  }

  /** The room that all insertions together can take at most. */
  function RoomFor(writes: seq<Write>): nat {
    if writes == [] then HEADER_SIZE
    else
      var w := writes[|writes| - 1];
      RoomFor(writes[..|writes| - 1]) + if w.Insert? then RecordSize(NewNode(w.name, w.entry)) else 0
  }

  /** Entries that can be encoded, and that fit the file together, can all be stored. */
  lemma {:induction false} RoomIsEnough(writes: seq<Write>)
    requires forall w :: w in writes && w.Insert? ==> Fits(NewNode(w.name, w.entry))
    requires RoomFor(writes) <= MAX_FILE_SIZE
    ensures Storable(writes) && SizeAfter(writes) <= RoomFor(writes)
  {
    if writes == [] {
    } else {
      RoomIsEnough(writes[..|writes| - 1]);
    }
  }

  /** The items of the tree are the bindings of the map. */
  ghost predicate IsMap(s: seq<Item>, m: Listed) {
    forall key: Key :: Find(s, key) == if key in m then Some(m[key]) else None
  }

  lemma {:induction false} AfterInsert(s: seq<Item>, m: Listed, x: Item)
    requires IsMap(s, m) && x.key !in m
    ensures IsMap(InsertItem(s, x), m[x.key := x.value])
  {
    FindAbsent(s, x.key);
    forall key: Key ensures Find(InsertItem(s, x), key) == if key == x.key then Some(x.value) else Find(s, key) {
      FindAfterInsert(s, x, key);
    }
  }

  lemma {:induction false} AfterSet(s: seq<Item>, m: Listed, name: Key, value: EntryData)
    requires IsMap(s, m) && name in m
    ensures IsMap(SetValue(s, name, value), m[name := value])
  {
    FindAbsent(s, name);
    forall key: Key ensures Find(SetValue(s, name, value), key) == if key == name then Some(value) else Find(s, key) {
      FindAfterSet(s, name, value, key);
    }
  }

  /** A record is 28 bytes more than its name and data and may have 2^30; a file may have 2^63 - 1. */
  predicate TooLarge(name: Key, entry: EntryData, fileSize: nat) {
    var payload := 28 + |name| + if entry.Whiteout? then 4 else 17;
    payload > 0x4000_0000 || fileSize + 8 + payload > 0x7fff_ffff_ffff_ffff
  }

  /** One write through the writer does to the directory what it does to the map, unless there is no room for it. */
  method WriteOne(writer: DirectoryDataWriter, w: Write, ghost m: Listed) returns (ok: bool)
    requires writer.Valid() && IsMap(writer.Entries(), m)
    modifies writer.tree, writer.tree.storage, writer.tree.storage.stream
    ensures writer.Valid() && IsMap(writer.Entries(), if ok then Apply(m, w) else m)
    ensures !ok <==> AddsRecord(m, w) && CannotStore(w.name, w.entry, |old(writer.tree.storage.stream.data)|)
    ensures !ok <==> w.Insert? && w.name !in m && TooLarge(w.name, w.entry, |old(writer.tree.storage.stream.data)|)
    ensures !ok ==> writer.tree.storage.stream.data == old(writer.tree.storage.stream.data)
    ensures ok ==> |writer.tree.storage.stream.data| == |old(writer.tree.storage.stream.data)|
                   + (if AddsRecord(m, w) then RecordSize(NewNode(w.name, w.entry)) else 0)
  {
    ghost var size := |writer.tree.storage.stream.data|;
    assert HEADER_SIZE <= size <= MAX_FILE_SIZE;
    hide IsMap, DirectoryDataWriter.Valid;
    ghost var before := writer.Entries();
    Looked(before, m, w.name);
    match w {
      case Insert(name, entry) =>
        ghost var x := Item(size, name, entry);
        var inserted := writer.InsertEntry(name, entry);
        if inserted == Ok(true) {
          AfterInsert(before, m, x);
        }
        ok := inserted.Ok?;
      case SetOpaque(name, opaqueDir) =>
        var done := writer.SetOpaqueDir(name, opaqueDir);
        if done.Ok? {
          AfterSet(before, m, name, File(m[name].data.(opaqueDir := opaqueDir)));
        }
        ok := true;
    }
  }

  lemma {:induction false} Looked(s: seq<Item>, m: Listed, name: Key)
    requires IsMap(s, m)
    ensures Find(s, name) == if name in m then Some(m[name]) else None
  {
  }

  /** A listing of the map: each binding once. */
  ghost predicate Lists(entries: seq<(Key, EntryData)>, m: Listed) {
    && (forall i :: 0 <= i < |entries| ==> entries[i].0 in m && m[entries[i].0] == entries[i].1)
    && (forall i, j :: 0 <= i < j < |entries| ==> entries[i].0 != entries[j].0)
    && (forall key :: key in m ==> exists i :: 0 <= i < |entries| && entries[i].0 == key)
  }

  lemma {:induction false} SortedLists(s: seq<Item>, m: Listed)
    requires Sorted(s) && IsMap(s, m)
    ensures Lists(Listing(s), m)
  {
    forall i | 0 <= i < |s| ensures s[i].key in m && m[s[i].key] == s[i].value {
      FindAt(s, i);
    }
    forall i, j | 0 <= i < j < |s| ensures s[i].key != s[j].key {
      LtIrreflexive(s[i].key);
    }
    forall key | key in m ensures exists i :: 0 <= i < |s| && Listing(s)[i].0 == key {
      FindAbsent(s, key);
      var i :| 0 <= i < |s| && s[i].key == key;
      assert Listing(s)[i].0 == key;
    }
  }

  /** No two records have the same name: they are at different places of the tree. */
  lemma {:induction false} DistinctRecords(root: Option<Ptr>, es: seq<Record>, t: Tree, i: nat, j: nat)
    requires Consistent(root, NodeMap(es), t) && i < j < |es|
    ensures es[i].key != es[j].key
  {
    OffsetsAreNodes(es, i);
    OffsetsAreNodes(es, j);
    OffsetsIncrease(es, i, j);
    var a := ItemHeldBy(NodeMap(es), t, Offset(es, i));
    var b := ItemHeldBy(NodeMap(es), t, Offset(es, j));
    LtIrreflexive(es[i].key);
  }

  /** What the unordered stream yields, without the offsets. */
  function Yielded(stream: seq<(nat, AvlNode)>): (r: seq<(Key, EntryData)>)
    ensures |r| == |stream|
  {
    seq(|stream|, i requires 0 <= i < |stream| => (stream[i].1.key, stream[i].1.value))
  }

  lemma {:induction false} StreamLists(root: Option<Ptr>, es: seq<Record>, t: Tree, m: Listed)
    requires Consistent(root, NodeMap(es), t) && IsMap(Items(t), m)
    ensures Lists(Yielded(StreamFrom(es, 0)), m)
  {
    var entries := Yielded(StreamFrom(es, 0));
    forall i | 0 <= i < |es| ensures entries[i] == (es[i].key, es[i].value) {
      Resume(es, 0, i);
    }
    StreamsAgree(root, es, t);
    hide Consistent, StreamFrom, Yielded;
    forall i, j | 0 <= i < j < |es| ensures entries[i].0 != entries[j].0 {
      DistinctRecords(root, es, t, i, j);
    }
    forall i | 0 <= i < |es| ensures entries[i].0 in m && m[entries[i].0] == entries[i].1 {
      Looked(Items(t), m, es[i].key);
    }
    forall key | key in m ensures exists i :: 0 <= i < |entries| && entries[i].0 == key {
      FindAbsent(Items(t), key);
      var i :| 0 <= i < |es| && es[i].key == key;
      assert entries[i].0 == key;
    }
  }

  /** Opens a file again after its writer has been dropped. */
  method Reopen(stream: ByteStream, ghost dropped: DirectoryDataWriter) returns (writer: DirectoryDataWriter)
    requires dropped.Valid() && dropped.tree.storage.stream == stream
    modifies stream`position
    ensures writer.Valid() && writer.Entries() == dropped.Entries()
    ensures fresh(writer) && fresh(writer.tree) && fresh(writer.tree.storage) && writer.tree.storage.stream == stream
  {
    stream.Seek(0);
    ghost var storage := dropped.tree.storage;
    writer := new DirectoryDataWriter.Open(stream, storage.root, storage.entries, dropped.tree.tree);
  }

  /**
   Any writes to a new file, as long as there is room for them. Before the writes numbered in `reopen`
   the writer has been dropped, and the file is opened again.
   */
  method WriteDirectory(stream: ByteStream, writes: seq<Write>, reopen: set<nat>)
    returns (ok: bool, writer: DirectoryDataWriter)
    requires stream.data == [] && stream.position == 0
    modifies stream
    ensures fresh(writer) && fresh(writer.tree) && fresh(writer.tree.storage) && writer.tree.storage.stream == stream
    ensures writer.Valid() && (ok ==> IsMap(writer.Entries(), ApplyAll(writes)))
    ensures ok <==> Storable(writes)
    ensures ok ==> |stream.data| == SizeAfter(writes)
  {
    hide IsMap, Apply, CannotStore, AddsRecord, DirectoryDataWriter.Valid;
    writer := new DirectoryDataWriter.Create(stream);
    EmptyIsMap();
    for i := 0 to |writes|
      invariant fresh(writer) && fresh(writer.tree) && fresh(writer.tree.storage)
      invariant writer.tree.storage.stream == stream
      invariant writer.Valid() && IsMap(writer.Entries(), ApplyAll(writes[..i]))
      invariant Storable(writes[..i]) && |stream.data| == SizeAfter(writes[..i])
    {
      NextWrite(writes, i);
      if i in reopen {
        writer := Reopen(stream, writer);
      }
      ok := WriteOne(writer, writes[i], ApplyAll(writes[..i]));
      if !ok {
        if Storable(writes) {
          StorablePrefix(writes, i + 1);
        }
        return;
      }
    }
    assert writes[..|writes|] == writes;
    ok := true;
  }

  lemma {:induction false} NextWrite(writes: seq<Write>, i: nat)
    requires i < |writes|
    ensures
      var m := ApplyAll(writes[..i]);
      var w := writes[i];
      && ApplyAll(writes[..i + 1]) == Apply(m, w)
      && (Storable(writes[..i + 1]) <==>
          Storable(writes[..i]) && !(AddsRecord(m, w) && CannotStore(w.name, w.entry, SizeAfter(writes[..i]))))
      && SizeAfter(writes[..i + 1])
         == SizeAfter(writes[..i]) + if AddsRecord(m, w) then RecordSize(NewNode(w.name, w.entry)) else 0
  {
    assert writes[..i + 1][..i] == writes[..i];
  }

  lemma EmptyIsMap()
    ensures IsMap([], ApplyAll([]))
  {
  }

  /**
   Writing and then reading the bytes back: the ordered stream lists the directory in the order of
   the names, the unordered stream lists it too, and looking a name up finds it in the map.
   */
  method WriteThenRead(writes: seq<Write>, reopen: set<nat>, name: Key)
    returns (ok: bool, byName: seq<(Key, EntryData)>, streamed: seq<(nat, AvlNode)>, found: Option<EntryData>)
    ensures ok <==> Storable(writes)
    ensures ok ==> Lists(byName, ApplyAll(writes))
    ensures ok ==> forall i, j :: 0 <= i < j < |byName| ==> ComesBefore(byName[i].0, byName[j].0)
    ensures ok ==> Lists(Yielded(streamed), ApplyAll(writes))
    ensures ok ==> found == if name in ApplyAll(writes) then Some(ApplyAll(writes)[name]) else None
  {
    hide IsMap, Lists, Yielded, ApplyAll, Storable, ComesBefore, Sorted;
    var stream := new ByteStream([]);
    var writer: DirectoryDataWriter;
    ok, writer := WriteDirectory(stream, writes, reopen);
    byName, streamed, found := [], [], None;
    if ok {
      stream.Seek(0);
      ghost var t, storage := writer.tree.tree, writer.tree.storage;
      var reader := new DirectoryDataReader(stream, storage.root, storage.entries, t);
      found := reader.LookUpEntry(name);
      Looked(Items(t), ApplyAll(writes), name);
      streamed := reader.ReadFrom(0, 0);
      StreamLists(storage.root, storage.entries, t, ApplyAll(writes));
      byName := reader.ReadInOrder();
      SortedLists(Items(t), ApplyAll(writes));
    }
  }
}
