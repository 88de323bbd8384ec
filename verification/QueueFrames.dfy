/**
 The frames of the GitHub message queue (`maelstrom-github/src/queue.rs`) and their bytes:
 headers as `bincode` writes them by default, a payload's bytes right after its header.
 */
module QueueFrames {
  import opened Wrappers
  import opened Integers
  import opened Sequences

  /** Data whose length fits the header. */
  type Data = d: Bytes | |d| < 0x1_0000_0000_0000_0000

  datatype Frame = KeepAlive | Payload(data: Data) | Shutdown

  /** A message as the reader delivers it; `None` is the end of the conversation. */
  type Message = Option<Bytes>

  datatype Header = KeepAliveHeader | PayloadHeader(size: u64) | ShutdownHeader

  /** `bincode::serialize`: the tag in four bytes and the size in eight, least significant first. */
  function EncodeHeader(h: Header): (s: Bytes)
    ensures |s| >= 4
  {
    match h
    case KeepAliveHeader => [0, 0, 0, 0]
    case PayloadHeader(size) =>
      WidthRanges();
      [1, 0, 0, 0] + LittleEndian(size, 8)
    case ShutdownHeader => [2, 0, 0, 0]
  }

  function EncodeFrame(f: Frame): (s: Bytes)
    ensures |s| >= 4
  {
    match f
    case KeepAlive => EncodeHeader(KeepAliveHeader)
    case Payload(data) => EncodeHeader(PayloadHeader(|data|)) + data
    case Shutdown => EncodeHeader(ShutdownHeader)
  }

  function EncodeFrames(frames: seq<Frame>): Bytes {
    if frames == [] then [] else EncodeFrame(frames[0]) + EncodeFrames(frames[1..])
  }

  lemma {:induction false} EncodeFramesSum(a: seq<Frame>, b: seq<Frame>)
    ensures EncodeFrames(a + b) == EncodeFrames(a) + EncodeFrames(b)
  {
    if a == [] {
      assert a + b == b;
    } else {
      assert (a + b)[1..] == a[1..] + b;
      EncodeFramesSum(a[1..], b);
    }
  }

  function MessageOf(f: Frame): seq<Message> {
    match f
    case KeepAlive => []
    case Payload(data) => [Some(data)]
    case Shutdown => [None]
  }

  /** The messages among the frames, in order. */
  function Messages(frames: seq<Frame>): seq<Message> {
    if frames == [] then [] else MessageOf(frames[0]) + Messages(frames[1..])
  }

  lemma {:induction false} MessagesSum(a: seq<Frame>, b: seq<Frame>)
    ensures Messages(a + b) == Messages(a) + Messages(b)
  {
    if a == [] {
      assert a + b == b;
    } else {
      assert (a + b)[1..] == a[1..] + b;
      MessagesSum(a[1..], b);
    }
  }

  // ----- Reading frames back

  /** `bincode::deserialize_from`: the header and the bytes after it. */
  function DecodeHeader(s: Bytes): Option<(Header, Bytes)> {
    if |s| < 4 then None
    else
      match FromLittleEndian(s[..4])
      case 0 => Some((KeepAliveHeader, s[4..]))
      case 1 =>
        if |s| < 12 then None
        else
          WidthRanges();
          Some((PayloadHeader(FromLittleEndian(s[4..12])), s[12..]))
      case 2 => Some((ShutdownHeader, s[4..]))
      case _ => None
  }

  lemma HeaderIsShorter(s: Bytes)
    ensures DecodeHeader(s).Some? ==> |DecodeHeader(s).value.1| < |s|
  {
  }

  datatype End = Clean | BadHeader | PayloadCutShort

  /** The frames at the front of a buffer, and how the reading of it ends. */
  function ParseFrames(s: Bytes): (seq<Frame>, End)
    decreases |s|
  {
    if s == [] then ([], Clean)
    else
      match DecodeHeader(s)
      case None => ([], BadHeader)
      case Some((KeepAliveHeader, rest)) => var more := ParseFrames(rest); ([KeepAlive] + more.0, more.1)
      case Some((ShutdownHeader, rest)) => var more := ParseFrames(rest); ([Shutdown] + more.0, more.1)
      case Some((PayloadHeader(size), rest)) =>
        if |rest| < size then ([], PayloadCutShort)
        else
          var more := ParseFrames(rest[size..]);
          ([Payload(rest[..size])] + more.0, more.1)
  }

  /** A tag below 256 is its first byte, and then the others are zero. */
  lemma {:induction false} TagBytes(s: Bytes)
    requires |s| == 4 && FromLittleEndian(s) < 0x100
    ensures s == [FromLittleEndian(s), 0, 0, 0]
  {
    LittleEndianInverts(s);
    var n := FromLittleEndian(s);
    assert LittleEndian(0, 0) == [] && LittleEndian(0, 1) == [0] && LittleEndian(0, 2) == [0, 0];
    assert n / 0x100 == 0 && LittleEndian(0, 3) == [0, 0, 0];
    assert LittleEndian(n, 4) == [n] + LittleEndian(0, 3);
  }

  lemma TagValue(tag: u8)
    ensures FromLittleEndian([tag, 0, 0, 0]) == tag
  {
    assert [tag, 0, 0, 0][1..] == [0, 0, 0] && [0, 0, 0][1..] == [0, 0] && [0, 0][1..] == [0] && [0][1..] == [];
    assert FromLittleEndian([0]) == 0 && FromLittleEndian([0, 0]) == 0 && FromLittleEndian([0, 0, 0]) == 0;
  }

  lemma HeaderReads(f: Frame, t: Bytes)
    ensures
      DecodeHeader(EncodeFrame(f) + t) ==
      match f
      case KeepAlive => Some((KeepAliveHeader, t))
      case Payload(data) => Some((PayloadHeader(|data|), data + t))
      case Shutdown => Some((ShutdownHeader, t))
  {
    hide FromLittleEndian, LittleEndian;
    match f {
      case KeepAlive => SplitPrefix([0, 0, 0, 0], t); TagValue(0);
      case Shutdown => SplitPrefix([2, 0, 0, 0], t); TagValue(2);
      case Payload(data) =>
        TagValue(1);
        PayloadReads(LittleEndian(|data|, 8), data, t);
        LittleEndianRoundTrip(|data|, 8);
    }
  }

  lemma PayloadReads(size: Bytes, data: Bytes, t: Bytes)
    requires |size| == 8
    ensures
      var s := (([1, 0, 0, 0] + size) + data) + t;
      s[..4] == [1, 0, 0, 0] && s[4..12] == size && s[12..] == data + t
  {
  }

  /** A header that is read is the header as written. */
  lemma HeaderRead(s: Bytes)
    requires DecodeHeader(s).Some?
    ensures
      var (header, rest) := DecodeHeader(s).value;
      match header
      case KeepAliveHeader => s == EncodeFrame(KeepAlive) + rest
      case ShutdownHeader => s == EncodeFrame(Shutdown) + rest
      case PayloadHeader(size) => size <= |rest| ==> s == EncodeFrame(Payload(rest[..size])) + rest[size..]
  {
    hide FromLittleEndian, LittleEndian;
    TagBytes(s[..4]);
    assert s == s[..4] + s[4..];
    var (header, rest) := DecodeHeader(s).value;
    if header.PayloadHeader? && header.size <= |rest| {
      LittleEndianInverts(s[4..12]);
      PayloadWrites(s, header.size);
    }
  }

  lemma PayloadWrites(s: Bytes, n: nat)
    requires |s| >= 12 + n
    ensures s == ((s[..4] + s[4..12]) + s[12..][..n]) + s[12..][n..]
  {
  }

  /** Whole frames are read back, whatever follows. */
  lemma {:induction false} FramesReadBack(frames: seq<Frame>, t: Bytes)
    ensures
      var more := ParseFrames(t);
      ParseFrames(EncodeFrames(frames) + t) == (frames + more.0, more.1)
  {
    hide EncodeFrame, DecodeHeader;
    if frames == [] {
      assert EncodeFrames(frames) + t == t && frames + ParseFrames(t).0 == ParseFrames(t).0;
    } else {
      var f, rest := frames[0], EncodeFrames(frames[1..]) + t;
      assert EncodeFrames(frames) + t == EncodeFrame(f) + rest;
      HeaderReads(f, rest);
      FramesReadBack(frames[1..], t);
      assert frames + ParseFrames(t).0 == [f] + (frames[1..] + ParseFrames(t).0);
      match f {
        case Payload(data) => assert (data + rest)[..|data|] == data && (data + rest)[|data|..] == rest;
        case _ =>
      }
    }
  }

  lemma {:induction false} CleanIsFrames(s: Bytes)
    requires ParseFrames(s).1 == Clean
    ensures EncodeFrames(ParseFrames(s).0) == s
    decreases |s|
  {
    hide EncodeFrame, DecodeHeader;
    if s == [] {
    } else {
      HeaderRead(s);
      var (header, rest) := DecodeHeader(s).value;
      var after := if header.PayloadHeader? then rest[header.size..] else rest;
      CleanIsFrames(after);
      assert ParseFrames(s).0[1..] == ParseFrames(after).0;
    }
  }

  /** A buffer is read to its end exactly when it is a sequence of whole frames. */
  lemma {:induction false} ReadsCleanly(s: Bytes)
    ensures ParseFrames(s).1 == Clean <==> exists frames :: EncodeFrames(frames) == s
  {
    if frames :| EncodeFrames(frames) == s {
      assert s + [] == s;
      FramesReadBack(frames, []);
    }
    if ParseFrames(s).1 == Clean {
      CleanIsFrames(s);
    }
  }

  /** The bytes of each kind of frame. */
  lemma FrameBytes(f: Frame)
    ensures
      match f
      case KeepAlive => EncodeFrame(f) == [0, 0, 0, 0]
      case Shutdown => EncodeFrame(f) == [2, 0, 0, 0]
      case Payload(data) =>
        && |EncodeFrame(f)| == 12 + |data|
        && EncodeFrame(f)[..4] == [1, 0, 0, 0]
        && (forall k :: 0 <= k < 8 ==> EncodeFrame(f)[4 + k] == |data| / Range(k) % 0x100)
        && EncodeFrame(f)[12..] == data
  {
    if f.Payload? {
      WidthRanges();
      forall k | 0 <= k < 8 ensures EncodeFrame(f)[4 + k] == |f.data| / Range(k) % 0x100 {
        LittleEndianByte(|f.data|, 8, k);
      }
    }
  }
}
