/**
 The records of a directory contents file and their byte encodings: the fixed-width
 big-endian payload of an AVL node, framed by its length (`ty.rs`, `avl.rs`).
 */
module DirectoryRecords {
  import opened Wrappers
  import opened Integers

  const MAX_ENCODE_SIZE: nat := 0x4000_0000

  /** A pointer is the non-zero file offset of a record. */
  type Ptr = p: int | 0 < p < 0x1_0000_0000_0000_0000 witness 1

  /** A file name: a byte string no longer than a Rust string can be. */
  type Key = s: Bytes | |s| < 0x8000_0000_0000_0000 witness []

  type NonZeroU32 = x: int | 0 < x < 0x1_0000_0000 witness 1

  datatype FileType = NamedPipe | CharDevice | BlockDevice | Directory | RegularFile | Symlink | Socket

  datatype FileId = FileId(layer: u32, offset: NonZeroU32)

  datatype FileData = FileData(fileId: FileId, kind: FileType, opaqueDir: bool)

  datatype EntryData = Whiteout | File(data: FileData)

  datatype AvlNode = AvlNode(key: Key, value: EntryData, height: u32, left: Option<Ptr>, right: Option<Ptr>)

  /** A parser takes a value off the front of its input, or fails. */
  type Parsed<T> = Option<(T, Bytes)>

  // ----- Integers

  function U32(n: u32): (s: Bytes)
    ensures |s| == 4
  {
    WidthRanges();
    BigEndian(n, 4)
  }

  function U64(n: u64): (s: Bytes)
    ensures |s| == 8
  {
    WidthRanges();
    BigEndian(n, 8)
  }

  function ReadU32(s: Bytes): Parsed<u32> {
    if |s| < 4 then None
    else
      WidthRanges();
      Some((FromBigEndian(s[..4]), s[4..]))
  }

  function ReadU64(s: Bytes): Parsed<u64> {
    if |s| < 8 then None
    else
      WidthRanges();
      Some((FromBigEndian(s[..8]), s[8..]))
  }

  lemma ReadU32Inverts(n: u32, rest: Bytes)
    ensures ReadU32(U32(n) + rest) == Some((n, rest))
  {
    WidthRanges();
    BigEndianRoundTrip(n, 4);
    assert (U32(n) + rest)[..4] == U32(n) && (U32(n) + rest)[4..] == rest;
  }

  lemma ReadU64Inverts(n: u64, rest: Bytes)
    ensures ReadU64(U64(n) + rest) == Some((n, rest))
  {
    WidthRanges();
    BigEndianRoundTrip(n, 8);
    assert (U64(n) + rest)[..8] == U64(n) && (U64(n) + rest)[8..] == rest;
  }

  // ----- Pointers: zero stands for "no child"

  function Flatten(p: Option<Ptr>): u64 {
    match p
    case None => 0
    case Some(v) => v
  }

  function Unflatten(n: u64): Option<Ptr> {
    if n == 0 then None else Some(n)
  }

  function ReadPtr(s: Bytes): Parsed<Option<Ptr>> {
    var (n, s) :- ReadU64(s);
    Some((Unflatten(n), s))
  }

  // ----- Entry data

  function KindIndex(k: FileType): u32 {
    match k
    case NamedPipe => 0
    case CharDevice => 1
    case BlockDevice => 2
    case Directory => 3
    case RegularFile => 4
    case Symlink => 5
    case Socket => 6
  }

  function KindAt(n: u32): Option<FileType> {
    match n
    case 0 => Some(NamedPipe)
    case 1 => Some(CharDevice)
    case 2 => Some(BlockDevice)
    case 3 => Some(Directory)
    case 4 => Some(RegularFile)
    case 5 => Some(Symlink)
    case 6 => Some(Socket)
    case _ => None
  }

  function EncodeValue(v: EntryData): (s: Bytes)
    ensures |s| == ValueSize(v)
  {
    match v
    case Whiteout => U32(0)
    case File(d) =>
      U32(1) + (U32(d.fileId.layer) + (U32(d.fileId.offset) +
                                       (U32(KindIndex(d.kind)) + [if d.opaqueDir then 1 else 0])))
  }

  function ValueSize(v: EntryData): nat {
    if v.Whiteout? then 4 else 17
  }

  function ReadValue(s: Bytes): Parsed<EntryData> {
    var (variant, s) :- ReadU32(s);
    if variant == 0 then Some((Whiteout, s))
    else if variant != 1 then None
    else
      var (layer, s) :- ReadU32(s);
      var (offset, s) :- ReadU32(s);
      if offset == 0 then None
      else
        var (kindIndex, s) :- ReadU32(s);
        var kind :- KindAt(kindIndex);
        if s == [] || s[0] > 1 then None
        else Some((File(FileData(FileId(layer, offset), kind, s[0] == 1)), s[1..]))
  }

  lemma ReadValueInverts(v: EntryData, rest: Bytes)
    ensures ReadValue(EncodeValue(v) + rest) == Some((v, rest))
  {
    match v {
      case Whiteout =>
        ReadU32Inverts(0, rest);
      case File(d) =>
        var flag: Bytes := [if d.opaqueDir then 1 else 0];
        var s3 := U32(KindIndex(d.kind)) + (flag + rest);
        var s2 := U32(d.fileId.offset) + s3;
        var s1 := U32(d.fileId.layer) + s2;
        assert EncodeValue(v) + rest == U32(1) + s1;
        ReadU32Inverts(1, s1);
        ReadU32Inverts(d.fileId.layer, s2);
        ReadU32Inverts(d.fileId.offset, s3);
        ReadU32Inverts(KindIndex(d.kind), flag + rest);
        assert (flag + rest)[1..] == rest;
    }
  }

  // ----- Nodes

  function EncodePayload(n: AvlNode): (s: Bytes)
    ensures |s| == PayloadSize(n.key, n.value)
  {
    U64(|n.key|) + (n.key + (EncodeValue(n.value) + (U32(n.height) + (U64(Flatten(n.left)) + U64(Flatten(n.right))))))
  }

  /** The payload's size depends on the key and the value alone. */
  function PayloadSize(key: Key, value: EntryData): nat {
    28 + |key| + ValueSize(value)
  }

  function ReadKey(s: Bytes): Parsed<Key> {
    var (n, s) :- ReadU64(s);
    if |s| < n || n >= 0x8000_0000_0000_0000 then None else Some((s[..n], s[n..]))
  }

  function DecodePayload(s: Bytes): Option<AvlNode> {
    var (key, s) :- ReadKey(s);
    var (value, s) :- ReadValue(s);
    var (height, s) :- ReadU32(s);
    var (left, s) :- ReadPtr(s);
    var (right, s) :- ReadPtr(s);
    if s == [] then Some(AvlNode(key, value, height, left, right)) else None
  }

  lemma ReadKeyInverts(key: Key, rest: Bytes)
    ensures ReadKey(U64(|key|) + (key + rest)) == Some((key, rest))
  {
    ReadU64Inverts(|key|, key + rest);
    assert (key + rest)[..|key|] == key && (key + rest)[|key|..] == rest;
  }

  lemma ReadPtrInverts(p: Option<Ptr>, rest: Bytes)
    ensures ReadPtr(U64(Flatten(p)) + rest) == Some((p, rest))
  {
    ReadU64Inverts(Flatten(p), rest);
  }

  lemma DecodePayloadInverts(n: AvlNode)
    ensures DecodePayload(EncodePayload(n)) == Some(n)
  {
    var s4 := U64(Flatten(n.right));
    var s3 := U64(Flatten(n.left)) + s4;
    var s2 := U32(n.height) + s3;
    var s1 := EncodeValue(n.value) + s2;
    assert EncodePayload(n) == U64(|n.key|) + (n.key + s1);
    ReadKeyInverts(n.key, s1);
    ReadValueInverts(n.value, s2);
    ReadU32Inverts(n.height, s3);
    ReadPtrInverts(n.left, s4);
    ReadPtrInverts(n.right, []);
    assert s4 + [] == s4;
  }

  // ----- Framing

  /** A node that is small enough to be written. */
  predicate Fits(n: AvlNode) {
    PayloadSize(n.key, n.value) <= MAX_ENCODE_SIZE
  }

  function RecordSize(n: AvlNode): (size: nat)
    ensures size > 8
  {
    8 + PayloadSize(n.key, n.value)
  }

  function EncodeRecord(n: AvlNode): (s: Bytes)
    requires Fits(n)
    ensures |s| == RecordSize(n)
  {
    U64(PayloadSize(n.key, n.value)) + EncodePayload(n)
  }

  /** What `decode` takes off the front of a stream: a length, then that many bytes. */
  function ReadFrame(s: Bytes): Parsed<Bytes> {
    var (size, s) :- ReadU64(s);
    if size > MAX_ENCODE_SIZE || size > |s| then None else Some((s[..size], s[size..]))
  }

  lemma ReadFrameInverts(payload: Bytes, rest: Bytes)
    requires |payload| <= MAX_ENCODE_SIZE
    ensures ReadFrame(U64(|payload|) + (payload + rest)) == Some((payload, rest))
  {
    ReadU64Inverts(|payload|, payload + rest);
    assert (payload + rest)[..|payload|] == payload && (payload + rest)[|payload|..] == rest;
  }

  function DecodeRecord(s: Bytes): Parsed<AvlNode> {
    var (payload, s) :- ReadFrame(s);
    var node :- DecodePayload(payload);
    Some((node, s))
  }

  /** Whatever follows a record, decoding gives the node back and stops at the record's end. */
  lemma DecodeRecordInverts(n: AvlNode, rest: Bytes)
    requires Fits(n)
    ensures DecodeRecord(EncodeRecord(n) + rest) == Some((n, rest))
  {
    var payload := EncodePayload(n);
    assert EncodeRecord(n) + rest == U64(|payload|) + (payload + rest);
    ReadFrameInverts(payload, rest);
    DecodePayloadInverts(n);
  }

  // ----- The file header: format version 0 and the root pointer

  const HEADER_SIZE: nat := 20

  function EncodeHeader(root: Option<Ptr>): (s: Bytes)
    ensures |s| == HEADER_SIZE
  {
    U64(12) + (U32(0) + U64(Flatten(root)))
  }

  function DecodeHeader(s: Bytes): Parsed<Option<Ptr>> {
    var (payload, s) :- ReadFrame(s);
    var (version, payload) :- ReadU32(payload);
    if version != 0 then None
    else
      var (root, payload) :- ReadPtr(payload);
      if payload == [] then Some((root, s)) else None
  }

  lemma DecodeHeaderInverts(root: Option<Ptr>, rest: Bytes)
    ensures DecodeHeader(EncodeHeader(root) + rest) == Some((root, rest))
  {
    var pointer := U64(Flatten(root));
    var payload := U32(0) + pointer;
    assert EncodeHeader(root) + rest == U64(|payload|) + (payload + rest);
    ReadFrameInverts(payload, rest);
    ReadU32Inverts(0, pointer);
    ReadPtrInverts(root, []);
    assert pointer + [] == pointer;
  }

  // ----- The layout, byte by byte

  /** From `at` on there are `width` bytes of `n`, most significant first. */
  predicate HoldsNumber(s: Bytes, at: nat, width: nat, n: nat) {
    at + width <= |s| && forall k :: 0 <= k < width ==> s[at + width - 1 - k] == n / Range(k) % 0x100
  }

  lemma NumberBytes(n: u64, after: Bytes)
    ensures HoldsNumber(U64(n) + after, 0, 8, n)
    ensures n < 0x1_0000_0000 ==> HoldsNumber(U32(n) + after, 0, 4, n)
  {
    WidthRanges();
    forall k | 0 <= k < 8 ensures U64(n)[7 - k] == n / Range(k) % 0x100 {
      BigEndianByte(n, 8, k);
    }
    if n < 0x1_0000_0000 {
      forall k | 0 <= k < 4 ensures U32(n)[3 - k] == n / Range(k) % 0x100 {
        BigEndianByte(n, 4, k);
      }
    }
  }

  /** What is at the front of the rest of `s` is at its place in `s`; the next part starts after it. */
  lemma Place(s: Bytes, at: nat, part: Bytes, rest: Bytes)
    requires at <= |s| && s[at..] == part + rest
    ensures at + |part| <= |s| && s[at..at + |part|] == part && s[at + |part|..] == rest
    ensures forall width, n :: HoldsNumber(part + rest, 0, width, n) ==> HoldsNumber(s, at, width, n)
  {
    assert forall i :: 0 <= i < |part + rest| ==> s[at + i] == (part + rest)[i];
    assert s[at..][..|part|] == part && s[at..][|part|..] == rest;
  }

  lemma PlaceU64(s: Bytes, at: nat, n: u64, rest: Bytes)
    requires at <= |s| && s[at..] == U64(n) + rest
    ensures HoldsNumber(s, at, 8, n) && at + 8 <= |s| && s[at + 8..] == rest
  {
    NumberBytes(n, rest);
    Place(s, at, U64(n), rest);
  }

  lemma PlaceU32(s: Bytes, at: nat, n: u32, rest: Bytes)
    requires at <= |s| && s[at..] == U32(n) + rest
    ensures HoldsNumber(s, at, 4, n) && at + 4 <= |s| && s[at + 4..] == rest
  {
    NumberBytes(n, rest);
    Place(s, at, U32(n), rest);
  }

  /** A pointer is its number, and zero stands for none. */
  predicate HoldsPtr(s: Bytes, at: nat, p: Option<Ptr>) {
    HoldsNumber(s, at, 8, match p case None => 0 case Some(v) => v)
  }

  /** The kinds of file are numbered in this order. */
  const KINDS: seq<FileType> := [NamedPipe, CharDevice, BlockDevice, Directory, RegularFile, Symlink, Socket]

  predicate HoldsValue(s: Bytes, at: nat, v: EntryData) {
    match v
    case Whiteout => HoldsNumber(s, at, 4, 0)
    case File(FileData(FileId(layer, offset), kind, opaqueDir)) =>
      && HoldsNumber(s, at, 4, 1) && HoldsNumber(s, at + 4, 4, layer) && HoldsNumber(s, at + 8, 4, offset)
      && (forall i :: 0 <= i < |KINDS| && KINDS[i] == kind ==> HoldsNumber(s, at + 12, 4, i))
      && at + 16 < |s| && s[at + 16] == if opaqueDir then 1 else 0
  }

  lemma PlaceValue(s: Bytes, at: nat, v: EntryData, rest: Bytes)
    requires at <= |s| && s[at..] == EncodeValue(v) + rest
    ensures HoldsValue(s, at, v) && s[at..][..ValueSize(v)] == EncodeValue(v)
    ensures at + ValueSize(v) <= |s| && s[at + ValueSize(v)..] == rest
  {
    hide HoldsNumber;
    Place(s, at, EncodeValue(v), rest);
    if v.File? {
      var d := v.data;
      var flag: Bytes := [if d.opaqueDir then 1 else 0];
      var s3 := U32(KindIndex(d.kind)) + (flag + rest);
      var s2 := U32(d.fileId.offset) + s3;
      var s1 := U32(d.fileId.layer) + s2;
      assert EncodeValue(v) + rest == U32(1) + s1;
      PlaceU32(s, at, 1, s1);
      PlaceU32(s, at + 4, d.fileId.layer, s2);
      PlaceU32(s, at + 8, d.fileId.offset, s3);
      PlaceU32(s, at + 12, KindIndex(d.kind), flag + rest);
      assert s[at + 16..][0] == flag[0];
      KindsInOrder(d.kind);
    } else {
      PlaceU32(s, at, 0, rest);
    }
  }

  lemma KindsInOrder(kind: FileType)
    ensures forall i :: 0 <= i < |KINDS| && KINDS[i] == kind ==> i == KindIndex(kind)
  {
    assert forall i :: 0 <= i < |KINDS| ==> KindIndex(KINDS[i]) == i;
  }

  /** Where everything is in a record: sizes, name, data, height and the two links. */
  lemma RecordLayout(n: AvlNode)
    requires Fits(n)
    ensures
      var s := EncodeRecord(n);
      var data := 16 + |n.key|;
      var height := data + if n.value.Whiteout? then 4 else 17;
      && |s| == height + 20
      && HoldsNumber(s, 0, 8, |s| - 8)
      && HoldsNumber(s, 8, 8, |n.key|) && s[16..data] == n.key
      && HoldsValue(s, data, n.value)
      && HoldsNumber(s, height, 4, n.height)
      && HoldsPtr(s, height + 4, n.left) && HoldsPtr(s, height + 12, n.right)
  {
    hide HoldsNumber, HoldsValue, EncodeValue;
    var s := EncodeRecord(n);
    var s4 := U64(Flatten(n.right)) + [];
    var s3 := U64(Flatten(n.left)) + s4;
    var s2 := U32(n.height) + s3;
    var s1 := EncodeValue(n.value) + s2;
    var data := 16 + |n.key|;
    var height := data + ValueSize(n.value);
    assert s[0..] == U64(PayloadSize(n.key, n.value)) + (U64(|n.key|) + (n.key + s1));
    PlaceU64(s, 0, PayloadSize(n.key, n.value), U64(|n.key|) + (n.key + s1));
    PlaceU64(s, 8, |n.key|, n.key + s1);
    Place(s, 16, n.key, s1);
    PlaceValue(s, data, n.value, s2);
    PlaceU32(s, height, n.height, s3);
    PlaceU64(s, height + 4, Flatten(n.left), s4);
    PlaceU64(s, height + 12, Flatten(n.right), []);
  }

  /** The header: its own size, version zero, and the root. */
  lemma HeaderLayout(root: Option<Ptr>)
    ensures
      var s := EncodeHeader(root);
      |s| == 20 && HoldsNumber(s, 0, 8, 12) && HoldsNumber(s, 8, 4, 0) && HoldsPtr(s, 12, root)
  {
    hide HoldsNumber;
    var s := EncodeHeader(root);
    var s2 := U64(Flatten(root)) + [];
    var s1 := U32(0) + s2;
    assert s[0..] == U64(12) + s1;
    PlaceU64(s, 0, 12, s1);
    PlaceU32(s, 8, 0, s2);
    PlaceU64(s, 12, Flatten(root), []);
  }
}
