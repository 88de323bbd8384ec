/**
 The storage of a directory's AVL tree: a byte file that holds a header and then the
 node records in the order they were inserted (`dir.rs`). A pointer to a node is the
 file offset of its record.
 */
module DirectoryStorage {
  import opened Wrappers
  import opened Integers
  import opened DirectoryRecords
  import opened ByteStreams
  import opened Sequences

  /** A node small enough to have been written. */
  type Record = n: AvlNode | Fits(n) witness AvlNode([], Whiteout, 1, None, None)

  // ----- The file as a function of the root pointer and the records

  function EncodeAll(es: seq<Record>): (s: Bytes)
    ensures |s| == TotalSize(es)
  {
    if es == [] then [] else EncodeAll(es[..|es| - 1]) + EncodeRecord(es[|es| - 1])
  }

  function TotalSize(es: seq<Record>): nat {
    if es == [] then 0 else TotalSize(es[..|es| - 1]) + RecordSize(es[|es| - 1])
  }

  function FileBytes(root: Option<Ptr>, es: seq<Record>): Bytes {
    EncodeHeader(root) + EncodeAll(es)
  }

  /** The offset at which record `i` starts; for `i == |es|`, the end of the file. */
  function Offset(es: seq<Record>, i: nat): nat
    requires i <= |es|
  {
    HEADER_SIZE + TotalSize(es[..i])
  }

  /** A position between two records, before the first or after the last. */
  ghost predicate OnBoundary(es: seq<Record>, position: nat) {
    exists i :: 0 <= i <= |es| && Offset(es, i) == position
  }

  /** The pointer store that the records stand for. */
  ghost function NodeMap(es: seq<Record>): map<nat, AvlNode> {
    if es == [] then map[]
    else NodeMap(es[..|es| - 1])[HEADER_SIZE + TotalSize(es[..|es| - 1]) := es[|es| - 1]]
  }

  // ----- Splitting byte strings

  lemma SplitAt(head: Bytes, a: Bytes, r: Bytes, b: Bytes)
    ensures (head + (a + r + b))[|head| + |a|..] == r + b
    ensures (head + (a + r + b))[|head| + |a| + |r|..] == b
  {
  }

  lemma OverwriteMiddle(head: Bytes, a: Bytes, r: Bytes, r': Bytes, b: Bytes)
    requires |r| == |r'|
    ensures Overwrite(head + (a + r + b), |head| + |a|, r') == head + (a + r' + b)
  {
  }

  lemma OverwriteEnd(head: Bytes, a: Bytes, r: Bytes)
    ensures Overwrite(head + a, |head + a|, r) == head + (a + r)
  {
  }

  lemma OverwriteStart(head: Bytes, head': Bytes, a: Bytes)
    requires |head| == |head'|
    ensures Overwrite(head + a, 0, head') == head' + a
  {
  }

  lemma {:induction false} TotalSizeConcat(a: seq<Record>, b: seq<Record>)
    ensures TotalSize(a + b) == TotalSize(a) + TotalSize(b)
  {
    if b == [] {
      assert a + b == a;
    } else {
      TotalSizeConcat(a, b[..|b| - 1]);
      assert (a + b)[..|a + b| - 1] == a + b[..|b| - 1];
    }
  }

  lemma {:induction false} EncodeAllConcat(a: seq<Record>, b: seq<Record>)
    ensures EncodeAll(a + b) == EncodeAll(a) + EncodeAll(b)
  {
    if b == [] {
      assert a + b == a;
    } else {
      var front, last := b[..|b| - 1], b[|b| - 1];
      calc {
        EncodeAll(a + b);
        { assert (a + b)[..|a + b| - 1] == a + front && (a + b)[|a + b| - 1] == last; }
        EncodeAll(a + front) + EncodeRecord(last);
        { EncodeAllConcat(a, front); }
        (EncodeAll(a) + EncodeAll(front)) + EncodeRecord(last);
        { Associative(EncodeAll(a), EncodeAll(front), EncodeRecord(last)); }
        EncodeAll(a) + (EncodeAll(front) + EncodeRecord(last));
        EncodeAll(a) + EncodeAll(b);
      }
    }
  }

  lemma OffsetStep(es: seq<Record>, i: nat)
    requires i < |es|
    ensures Offset(es, i + 1) == Offset(es, i) + RecordSize(es[i])
  {
    hide RecordSize;
    assert es[..i + 1][..i] == es[..i];
  }

  lemma {:induction false} TotalSizeAt(es: seq<Record>, i: nat)
    requires i < |es|
    ensures TotalSize(es) == TotalSize(es[..i]) + RecordSize(es[i]) + TotalSize(es[i + 1..])
  {
    hide RecordSize;
    assert es == es[..i + 1] + es[i + 1..];
    TotalSizeConcat(es[..i + 1], es[i + 1..]);
    OffsetStep(es, i);
  }

  /** Splitting the encoding of all records at record `i`. */
  lemma {:induction false} EncodeAllAt(es: seq<Record>, i: nat)
    requires i < |es|
    ensures EncodeAll(es) == EncodeAll(es[..i]) + EncodeRecord(es[i]) + EncodeAll(es[i + 1..])
  {
    hide EncodeRecord;
    calc {
      EncodeAll(es);
      { assert es == es[..i + 1] + es[i + 1..]; EncodeAllConcat(es[..i + 1], es[i + 1..]); }
      EncodeAll(es[..i + 1]) + EncodeAll(es[i + 1..]);
      { assert es[..i + 1][..i] == es[..i]; }
      EncodeAll(es[..i]) + EncodeRecord(es[i]) + EncodeAll(es[i + 1..]);
    }
  }

  // ----- What the pointer store contains

  lemma {:induction false} OffsetsAreNodes(es: seq<Record>, i: nat)
    requires i < |es|
    ensures Offset(es, i) in NodeMap(es) && NodeMap(es)[Offset(es, i)] == es[i]
  {
    var last := |es| - 1;
    if i == last {
    } else {
      var front := es[..last];
      assert front[..i] == es[..i];
      OffsetsAreNodes(front, i);
      NodesLieBelow(front, Offset(es, i));
    }
  }

  lemma {:induction false} NodesLieBelow(es: seq<Record>, p: nat)
    requires p in NodeMap(es)
    ensures HEADER_SIZE <= p < HEADER_SIZE + TotalSize(es)
  {
    var front := es[..|es| - 1];
    if p !in NodeMap(front) {
    } else {
      NodesLieBelow(front, p);
    }
  }

  ghost function IndexOf(es: seq<Record>, p: nat): (i: nat)
    requires p in NodeMap(es)
    ensures i < |es| && Offset(es, i) == p && es[i] == NodeMap(es)[p]
  {
    var last := |es| - 1;
    if p == HEADER_SIZE + TotalSize(es[..last]) then last
    else
      var i := IndexOf(es[..last], p);
      assert es[..last][..i] == es[..i];
      i
  }

  lemma UpdatesCommute(m: map<nat, AvlNode>, p: nat, x: AvlNode, q: nat, y: AvlNode)
    requires p != q
    ensures m[p := x][q := y] == m[q := y][p := x]
  {
  }

  lemma {:induction false} TotalSizeUpdate(es: seq<Record>, i: nat, n: Record)
    requires i < |es| && RecordSize(n) == RecordSize(es[i])
    ensures TotalSize(es[i := n]) == TotalSize(es)
  {
    hide RecordSize;
    var last := |es| - 1;
    if i == last {
      assert es[i := n][..last] == es[..last];
    } else {
      assert es[i := n][..last] == es[..last][i := n];
      TotalSizeUpdate(es[..last], i, n);
    }
  }

  /** Overwriting record `i` by one of the same size changes the store at that pointer alone. */
  lemma {:induction false} NodeMapUpdate(es: seq<Record>, i: nat, n: Record)
    requires i < |es| && RecordSize(n) == RecordSize(es[i])
    ensures NodeMap(es[i := n]) == NodeMap(es)[Offset(es, i) := n]
  {
    hide RecordSize, NodeMap, TotalSize;
    var last := |es| - 1;
    var front := es[..last];
    NodeMapStep(front, es[last]);
    assert es == front + [es[last]];
    if i == last {
      NodeMapStep(front, n);
      assert es[i := n] == front + [n];
    } else {
      NodeMapUpdate(front, i, n);
      TotalSizeUpdate(front, i, n);
      NodeMapStep(front[i := n], es[last]);
      assert es[i := n] == front[i := n] + [es[last]];
      assert front[..i] == es[..i];
      OffsetsAreNodes(front, i);
      NodesLieBelow(front, Offset(es, i));
      UpdatesCommute(NodeMap(front), Offset(es, i), n, HEADER_SIZE + TotalSize(front), es[last]);
    }
  }

  lemma {:induction false} NodeMapStep(front: seq<Record>, n: Record)
    ensures NodeMap(front + [n]) == NodeMap(front)[HEADER_SIZE + TotalSize(front) := n]
  {
    assert (front + [n])[..|front|] == front;
  }

  lemma {:induction false} NodeCount(es: seq<Record>)
    ensures |NodeMap(es)| == |es| <= TotalSize(es)
  {
    if es == [] {
    } else {
      var front := es[..|es| - 1];
      NodeCount(front);
      if HEADER_SIZE + TotalSize(front) in NodeMap(front) {
        NodesLieBelow(front, HEADER_SIZE + TotalSize(front));
      }
    }
  }

  // ----- The bytes at a pointer

  /** From the start of record `i`, decoding yields that record and stops at the next one. */
  lemma DecodeAt(root: Option<Ptr>, es: seq<Record>, i: nat)
    requires i < |es|
    ensures Offset(es, i) <= Offset(es, i + 1) <= |FileBytes(root, es)|
    ensures DecodeRecord(FileBytes(root, es)[Offset(es, i)..])
         == Some((es[i], FileBytes(root, es)[Offset(es, i + 1)..]))
  {
    hide EncodeRecord, DecodeRecord, RecordSize, EncodeHeader;
    EncodeAllAt(es, i);
    OffsetStep(es, i);
    TotalSizeAt(es, i);
    var rest := EncodeAll(es[i + 1..]);
    calc {
      DecodeRecord(FileBytes(root, es)[Offset(es, i)..]);
      { SplitAt(EncodeHeader(root), EncodeAll(es[..i]), EncodeRecord(es[i]), rest); }
      DecodeRecord(EncodeRecord(es[i]) + rest);
      { DecodeRecordInverts(es[i], rest); }
      Some((es[i], rest));
      { SplitAt(EncodeHeader(root), EncodeAll(es[..i]), EncodeRecord(es[i]), rest); }
      Some((es[i], FileBytes(root, es)[Offset(es, i + 1)..]));
    }
  }

  lemma OverwriteRecord(root: Option<Ptr>, es: seq<Record>, i: nat, n: Record)
    requires i < |es| && RecordSize(n) == RecordSize(es[i])
    ensures Offset(es, i) + RecordSize(n) <= |FileBytes(root, es)|
    ensures Overwrite(FileBytes(root, es), Offset(es, i), EncodeRecord(n)) == FileBytes(root, es[i := n])
  {
    hide EncodeRecord, DecodeRecord, RecordSize, EncodeHeader;
    EncodeAllAt(es, i);
    OffsetStep(es, i);
    TotalSizeAt(es, i);
    EncodeAllAt(es[i := n], i);
    assert es[i := n][..i] == es[..i] && es[i := n][i + 1..] == es[i + 1..];
    OverwriteMiddle(EncodeHeader(root), EncodeAll(es[..i]), EncodeRecord(es[i]), EncodeRecord(n),
                    EncodeAll(es[i + 1..]));
  }

  /** A record appended to the file is a fresh node at the old end of the file. */
  lemma {:induction false} AppendRecord(root: Option<Ptr>, es: seq<Record>, n: Record)
    ensures
      var file := FileBytes(root, es);
      && Overwrite(file, |file|, EncodeRecord(n)) == FileBytes(root, es + [n])
      && NodeMap(es + [n]) == NodeMap(es)[|file| := n]
      && |file| !in NodeMap(es)
  {
    assert (es + [n])[..|es|] == es;
    OverwriteEnd(EncodeHeader(root), EncodeAll(es), EncodeRecord(n));
    if |FileBytes(root, es)| in NodeMap(es) {
      NodesLieBelow(es, |FileBytes(root, es)|);
    }
  }

  /** The same names and data in the same insertion order; only links may differ. */
  ghost predicate SameListing(es: seq<Record>, es': seq<Record>) {
    && |es'| == |es|
    && forall i :: 0 <= i < |es| ==> es'[i].key == es[i].key && es'[i].value == es[i].value
  }

  /** The size of a file depends on its names and data only. */
  lemma {:induction false} SameListingSize(es: seq<Record>, es': seq<Record>)
    requires SameListing(es, es')
    ensures TotalSize(es') == TotalSize(es)
  {
    if es == [] {
    } else {
      SameListingSize(es[..|es| - 1], es'[..|es| - 1]);
    }
  }

  lemma SameListingTwice(a: seq<Record>, b: seq<Record>, c: seq<Record>)
    requires SameListing(a, b) && SameListing(b, c)
    ensures SameListing(a, c)
  {
  }

  // ----- Decoding at the stream's cursor

  method DecodeFrameFrom(stream: ByteStream) returns (payload: Bytes)
    requires stream.position <= |stream.data|
    requires ReadFrame(stream.data[stream.position..]).Some?
    modifies stream`position
    ensures stream.position <= |stream.data|
    ensures Some((payload, stream.data[stream.position..])) == old(ReadFrame(stream.data[stream.position..]))
  {
    ghost var data, start := stream.data, stream.position;
    SizeInFront(data[start..]);
    SliceOfRest(data, start, 8);
    var ok, prefix := stream.ReadExact(8);
    var size := ReadU64(prefix).value.0;
    SliceOfRest(data, start + 8, size);
    ok, payload := stream.ReadExact(size);
  }

  lemma SliceOfRest(data: Bytes, start: nat, count: nat)
    requires start + count <= |data|
    ensures data[start..][..count] == data[start..start + count]
    ensures data[start..][count..] == data[start + count..]
  {
  }

  /** The size is read off the first eight bytes alone, and a frame is as many bytes as it says. */
  lemma SizeInFront(s: Bytes)
    requires ReadFrame(s).Some?
    ensures |s| >= 8 && ReadU64(s[..8]).Some?
    ensures
      var size := ReadU64(s[..8]).value.0;
      size <= |s[8..]| && ReadFrame(s) == Some((s[8..][..size], s[8..][size..]))
  {
    assert s[..8][..8] == s[..8];
  }

  /** `decode_with_rich_error::<DirectoryEntry>`, on input that does not make it fail. */
  method DecodeNodeFrom(stream: ByteStream) returns (node: AvlNode)
    requires stream.position <= |stream.data|
    requires DecodeRecord(stream.data[stream.position..]).Some?
    modifies stream`position
    ensures stream.position <= |stream.data|
    ensures Some((node, stream.data[stream.position..])) == old(DecodeRecord(stream.data[stream.position..]))
  {
    var payload := DecodeFrameFrom(stream);
    node := DecodePayload(payload).value;
  }

  method DecodeHeaderFrom(stream: ByteStream) returns (root: Option<Ptr>)
    requires stream.position <= |stream.data|
    requires DecodeHeader(stream.data[stream.position..]).Some?
    modifies stream`position
    ensures stream.position <= |stream.data|
    ensures Some((root, stream.data[stream.position..])) == old(DecodeHeader(stream.data[stream.position..]))
  {
    var payload := DecodeFrameFrom(stream);
    var (version, rest) := ReadU32(payload).value;
    root := ReadPtr(rest).value.0;
  }

  // ----- The storage object

  datatype StorageError = TooLarge | FileFull

  class DirectoryEntryStorage {
    const stream: ByteStream

    ghost var root: Option<Ptr>
    ghost var entries: seq<Record>
    ghost var nodes: map<nat, AvlNode>

    /** The file is the header and the records, and `nodes` is the store they stand for. */
    ghost predicate Valid()
      reads this, stream`data
    {
      && stream.data == FileBytes(root, entries)
      && |stream.data| <= MAX_FILE_SIZE
      && nodes == NodeMap(entries)
    }

    constructor (stream: ByteStream, ghost root: Option<Ptr>, ghost entries: seq<Record>)
      requires stream.data == FileBytes(root, entries) && |stream.data| <= MAX_FILE_SIZE
      ensures Valid() && this.stream == stream
      ensures this.root == root && this.entries == entries
    {
      this.stream := stream;
      this.root := root;
      this.entries := entries;
      this.nodes := NodeMap(entries);
    }

    /** Far fewer than 2^64 nodes fit in a file. */
    lemma FewNodes()
      requires Valid()
      ensures |nodes| < 0x1_0000_0000_0000_0000
    {
      NodeCount(entries);
    }

    method Root() returns (r: Option<Ptr>)
      requires Valid()
      modifies stream`position
      ensures r == root
      ensures OnBoundary(entries, stream.position)
    {
      assert Offset(entries, 0) == HEADER_SIZE;
      stream.Seek(0);
      DecodeHeaderInverts(root, EncodeAll(entries));
      r := DecodeHeaderFrom(stream);
    }

    method LookUp(ptr: Ptr) returns (node: AvlNode)
      requires Valid() && ptr in nodes
      modifies stream`position
      ensures node == nodes[ptr] && Fits(node)
      ensures OnBoundary(entries, stream.position)
    {
      hide EncodeRecord, DecodeRecord;
      ghost var i := IndexOf(entries, ptr);
      DecodeAt(root, entries, i);
      OffsetStep(entries, i);
      stream.Seek(ptr);
      node := DecodeNodeFrom(stream);
      assert |stream.data[stream.position..]| == |stream.data[Offset(entries, i + 1)..]|;
      assert Offset(entries, i + 1) == stream.position;
    }

    method SetRoot(ptr: Ptr)
      requires Valid()
      modifies this`root, stream
      ensures Valid() && root == Some(ptr)
    {
      stream.Seek(0);
      OverwriteStart(EncodeHeader(root), EncodeHeader(Some(ptr)), EncodeAll(entries));
      var ok := stream.WriteAll(EncodeHeader(Some(ptr)));
      root := Some(ptr);
    }

    method Update(ptr: Ptr, value: AvlNode)
      requires Valid() && ptr in nodes
      requires PayloadSize(value.key, value.value) == PayloadSize(nodes[ptr].key, nodes[ptr].value)
      modifies this`entries, this`nodes, stream
      ensures Valid() && nodes == old(nodes)[ptr := value]
      ensures entries == old(entries)[IndexOf(old(entries), ptr) := value]
      ensures |stream.data| == |old(stream.data)|
      ensures value.key == old(nodes)[ptr].key && value.value == old(nodes)[ptr].value ==>
                SameListing(old(entries), entries)
    {
      ghost var i := IndexOf(entries, ptr);
      OverwriteRecord(root, entries, i, value);
      NodeMapUpdate(entries, i, value);
      stream.Seek(ptr);
      var ok := stream.WriteAll(EncodeRecord(value));
      entries := entries[i := value];
      nodes := nodes[ptr := value];
    }

    /** Appends a record; the new pointer is the old end of the file. */
    method Insert(node: AvlNode) returns (r: Result<Ptr, StorageError>)
      requires Valid()
      modifies this`entries, this`nodes, stream
      ensures Valid()
      ensures r.Err? <==> !Fits(node) || |old(stream.data)| + RecordSize(node) > MAX_FILE_SIZE
      ensures r.Err? ==> nodes == old(nodes) && entries == old(entries)
      ensures r.Ok? ==> r.value == |old(stream.data)| && r.value !in old(nodes)
      ensures r.Ok? ==> nodes == old(nodes)[r.value := node] && entries == old(entries) + [node]
    {
      hide EncodeRecord, EncodeHeader, EncodeAll, NodeMap;
      stream.SeekEnd();
      var ptr := stream.position;
      if !Fits(node) {
        return Err(TooLarge);
      }
      AppendRecord(root, entries, node);
      var ok := stream.WriteAll(EncodeRecord(node));
      if !ok {
        return Err(FileFull);
      }
      entries := entries + [node];
      nodes := nodes[ptr := node];
      return Ok(ptr);
    }
  }
}
