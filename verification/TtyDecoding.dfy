/**
 The incremental decoder of the terminal's byte stream (`maelstrom-base/src/tty.rs`) and the
 worker's loop around it (`maelstrom-worker/src/executor.rs`): however the socket cuts the
 stream, the terminal sees the events of the whole stream.
 */
module TtyDecoding {
  import opened Wrappers
  import opened Integers
  import opened TtyEncoding
  import opened Sequences

  const MAX_REMAINDER := 5
  const BUFFER_SIZE := 1024

  /** The bytes carried over between reads. */
  class DecodeInputRemainder {
    const data: array<u8>
    var length: u8

    ghost predicate Valid()
      reads this
    {
      data.Length == MAX_REMAINDER && length <= MAX_REMAINDER
    }

    ghost function Contents(): (s: Bytes)
      requires Valid()
      reads this, data
    {
      data[..length]
    }

    constructor Default()
      ensures Valid() && fresh(data) && Contents() == []
    {
      data := new u8[MAX_REMAINDER](_ => 0);
      length := 0;
    }

    constructor (remainder: Bytes)
      requires |remainder| <= MAX_REMAINDER
      ensures Valid() && fresh(data) && Contents() == remainder
    {
      data := new u8[MAX_REMAINDER](_ => 0);
      length := |remainder|;
      new;
      forall i | 0 <= i < |remainder| {
        data[i] := remainder[i];
      }
    }

    /** Copies the contents to the front of `dest` and forgets them. */
    method MoveToSlice(dest: array<u8>) returns (n: nat)
      requires Valid() && dest != data
      requires |Contents()| <= dest.Length
      modifies this, data, dest
      ensures Valid() && Contents() == []
      ensures n == |old(Contents())|
      ensures dest[..] == old(Contents()) + old(dest[n..])
    {
      n := length;
      forall i | 0 <= i < n {
        dest[i] := data[i];
      }
      assert dest[..] == old(Contents()) + old(dest[n..]);
      forall i | 0 <= i < data.Length {
        data[i] := 0;
      }
      length := 0;
    }
  }

  datatype DecodeInputChunk =
    | Input(bytes: Bytes)
    | WindowSizeChange(size: WindowSize)
    | Remainder(remainder: DecodeInputRemainder)

  /** `chunk` is what the decoder is to yield from the front of `s`, leaving `after`. */
  ghost predicate IsNext(s: Bytes, chunk: DecodeInputChunk, after: Bytes)
    requires chunk.Remainder? ==> chunk.remainder.Valid()
    reads if chunk.Remainder? then {chunk.remainder, chunk.remainder.data} else {}
  {
    match chunk
    case Input(bytes) =>
      && bytes != [] && s != []
      && (if s[..1] == [ESCAPE] then !Incomplete(s) && after == s[FirstLength(s)..] && First(s) == TypedAll(bytes)
          else ESCAPE !in bytes && s == bytes + after && (after == [] || after[0] == ESCAPE))
    case WindowSizeChange(size) => !Incomplete(s) && after == s[FirstLength(s)..] && First(s) == [Resized(size)]
    case Remainder(remainder) => s != [] && Incomplete(s) && remainder.Contents() == s && after == []
  }

  class DecodeInputIterator {
    var rest: Bytes

    constructor (input: Bytes)
      ensures rest == input
    {
      rest := input;
    }

    method Next() returns (r: Option<DecodeInputChunk>)
      modifies this
      ensures r.None? <==> old(rest) == []
      ensures r.None? ==> rest == []
      ensures r.Some? && r.value.Remainder? ==>
                r.value.remainder.Valid() && fresh(r.value.remainder) && fresh(r.value.remainder.data)
      ensures r.Some? ==> IsNext(old(rest), r.value, rest)
    {
      if rest == [] {
        r := None;
      } else if |rest| >= 2 && rest[0] == ESCAPE && rest[1] == ESCAPE {
        r := Some(Input(rest[1..2]));
        rest := rest[2..];
      } else if |rest| >= 6 && rest[0] == ESCAPE && rest[1] == 0 {
        r := Some(WindowSizeChange(WindowSize(Word(rest[2], rest[3]), Word(rest[4], rest[5]))));
        rest := rest[6..];
      } else if (|rest| >= 2 && rest[0] == ESCAPE && rest[1] == 0) || rest == [ESCAPE] {
        var remainder := new DecodeInputRemainder(rest);
        r := Some(Remainder(remainder));
        rest := [];
      } else if |rest| >= 2 && rest[0] == ESCAPE {
        r := Some(Input(rest[..2]));
        rest := rest[2..];
      } else {
        var nextEscape := FindEscape(rest);
        r := Some(Input(rest[..nextEscape]));
        rest := rest[nextEscape..];
      }
    }
  }

  /**
   The socket: `incoming` is what the client is yet to send before it closes, `pauses` how it comes
   in pieces, with `None` for a read that fails.
   */
  class Socket {
    var incoming: Bytes
    var pauses: seq<Option<nat>>

    /** Reads at least one byte unless the stream has ended, and no more than there is room for; or fails. */
    method Read(buf: array<u8>, offset: nat) returns (n: Option<nat>)
      requires offset < buf.Length
      modifies this, buf
      ensures pauses == if old(pauses) == [] then [] else old(pauses)[1..]
      ensures n.None? <==> old(pauses) != [] && old(pauses)[0].None?
      ensures n.None? ==> incoming == old(incoming)
      ensures n.Some? ==> n.value <= buf.Length - offset && n.value <= |old(incoming)|
      ensures n.Some? ==> (n.value == 0 <==> old(incoming) == [])
      ensures n.Some? ==> buf[..offset + n.value] == old(buf[..offset]) + old(incoming)[..n.value]
      ensures n.Some? ==> incoming == old(incoming)[n.value..]
    {
      var pause := if pauses == [] then Some(|incoming|) else pauses[0];
      pauses := if pauses == [] then [] else pauses[1..];
      if pause.None? {
        return None;
      }
      var room := buf.Length - offset;
      var count := if pause.value + 1 < room then pause.value + 1 else room;
      if |incoming| < count {
        count := |incoming|;
      }
      forall i | 0 <= i < count {
        buf[offset + i] := incoming[i];
      }
      assert buf[..offset] == old(buf[..offset]) && buf[offset..offset + count] == incoming[..count];
      assert buf[..offset + count] == buf[..offset] + buf[offset..offset + count];
      incoming := incoming[count..];
      n := Some(count);
    }
  }

  /**
   The terminal's master side, with everything that was asked of it. `room` is how many writes still
   succeed, or nothing if none will fail; whether a size can be set is up to the terminal.
   */
  class Terminal {
    var log: seq<Event>
    var room: Option<nat>
    var failed: bool
    var resizable: bool

    method WriteAll(bytes: Bytes) returns (ok: bool)
      modifies this
      ensures log == old(log) + TypedAll(bytes) && resizable == old(resizable)
      ensures ok <==> old(room) != Some(0)
      ensures failed == (old(failed) || !ok) && (room.None? <==> old(room).None?)
    {
      log := log + TypedAll(bytes);
      ok := room != Some(0);
      failed := failed || !ok;
      if room.Some? && room.value > 0 {
        room := Some(room.value - 1);
      }
    }

    method SetSize(size: WindowSize) returns (ok: bool)
      modifies this
      ensures log == old(log) + [Resized(size)] && failed == old(failed) && room == old(room)
      ensures resizable == old(resizable) == ok
    {
      log := log + [Resized(size)];
      ok := resizable;
    }
  }

  /** One chunk done: what is left of the input means what is still to be done. */
  lemma {:induction false} ChunkDone(log: seq<Event>, s: Bytes, chunk: DecodeInputChunk, after: Bytes)
    requires chunk.Remainder? ==> chunk.remainder.Valid()
    requires IsNext(s, chunk, after)
    ensures chunk.Input? ==> (log + TypedAll(chunk.bytes)) + Events(after) == log + Events(s) && Rest(after) == Rest(s)
    ensures chunk.WindowSizeChange? ==> (log + [Resized(chunk.size)]) + Events(after) == log + Events(s)
    ensures chunk.WindowSizeChange? ==> Rest(after) == Rest(s)
    ensures chunk.Remainder? ==> log + Events(after) == log + Events(s) && chunk.remainder.Contents() == Rest(s)
    ensures chunk.Remainder? ==> after == []
    ensures |after| < |s|
  {
    match chunk {
      case Input(bytes) =>
        if s[..1] != [ESCAPE] {
          PlainRun(bytes, after);
        }
        Associative(log, TypedAll(bytes), Events(after));
      case WindowSizeChange(size) =>
        Associative(log, [Resized(size)], Events(after));
      case Remainder(_) =>
    }
  }

  /** Decodes one buffer into the terminal, up to a write that fails; returns what is to be carried over. */
  method DecodeInto(input: Bytes, terminal: Terminal, empty: DecodeInputRemainder)
    returns (ok: bool, remainder: DecodeInputRemainder)
    requires empty.Valid() && empty.Contents() == [] && !terminal.failed
    modifies terminal
    ensures ok <==> !terminal.failed
    ensures terminal.room.None? <==> old(terminal.room).None?
    ensures old(terminal.room).None? ==> ok
    ensures remainder.Valid() && (remainder == empty || (fresh(remainder) && fresh(remainder.data)))
    ensures ok ==> remainder.Contents() == Rest(input) && terminal.log == old(terminal.log) + Events(input)
    ensures terminal.log <= old(terminal.log) + Events(input)
  {
    hide Events, Rest, IsNext, TypedAll;
    ok, remainder := true, empty;
    EmptyMeans();
    var chunks := new DecodeInputIterator(input);
    var chunk := chunks.Next();
    ghost var before := input;
    while chunk.Some?
      invariant fresh(chunks) && remainder.Valid() && !terminal.failed && ok
      invariant terminal.room.None? <==> old(terminal.room).None?
      invariant remainder == empty || (fresh(remainder) && fresh(remainder.data))
      invariant chunk.None? ==> before == []
      invariant chunk.Some? && chunk.value.Remainder? ==>
                  chunk.value.remainder.Valid() && fresh(chunk.value.remainder) && fresh(chunk.value.remainder.data)
      invariant chunk.Some? ==> IsNext(before, chunk.value, chunks.rest)
      invariant terminal.log + Events(before) == old(terminal.log) + Events(input)
      invariant if before != [] then Rest(before) == Rest(input) && remainder.Contents() == []
                else remainder.Contents() == Rest(input)
      decreases |before|
    {
      ChunkDone(terminal.log, before, chunk.value, chunks.rest);
      match chunk.value {
        case Input(bytes) =>
          ok := terminal.WriteAll(bytes);
          if !ok {
            return;
          }
        case WindowSizeChange(size) =>
          var _ := terminal.SetSize(size);
        case Remainder(newRemainder) => remainder := newRemainder;
      }
      before := chunks.rest;
      chunk := chunks.Next();
    }
  }

  lemma EmptyMeans()
    ensures Events([]) == [] && Rest([]) == []
  {
  }

  lemma {:induction false} ReadMore(log: seq<Event>, consumed: Bytes, piece: Bytes)
    ensures (log + Events(consumed)) + Events(Rest(consumed) + piece) == log + Events(consumed + piece)
    ensures Rest(Rest(consumed) + piece) == Rest(consumed + piece)
  {
    CutAnywhere(consumed, piece);
    Associative(log, Events(consumed), Events(Rest(consumed) + piece));
  }

  /**
   Puts what is carried over at the front of the buffer and reads behind it; returns where the input
   ends, or nothing if the stream has ended or cannot be read.
   */
  method ReadBehind(socket: Socket, buf: array<u8>, remainder: DecodeInputRemainder) returns (end: Option<nat>)
    requires remainder.Valid() && remainder.data != buf && |remainder.Contents()| < buf.Length
    modifies socket, buf, remainder, remainder.data
    ensures remainder.Valid() && remainder.Contents() == []
    ensures socket.pauses == if old(socket.pauses) == [] then [] else old(socket.pauses)[1..]
    ensures end.None? ==> socket.incoming == old(socket.incoming)
    ensures end.None? && None !in old(socket.pauses) ==> socket.incoming == []
    ensures end.Some? ==> end.value <= buf.Length && |socket.incoming| < |old(socket.incoming)|
    ensures end.Some? ==>
              var piece := old(socket.incoming)[..|old(socket.incoming)| - |socket.incoming|];
              old(socket.incoming) == piece + socket.incoming && buf[..end.value] == old(remainder.Contents()) + piece
  {
    var offset := remainder.MoveToSlice(buf);
    assert buf[..offset] == old(remainder.Contents());
    var read := socket.Read(buf, offset);
    if read.None? || read.value == 0 {
      return None;
    }
    end := Some(offset + read.value);
  }

  /**
   The worker's loop: however the stream is cut by the reads, the terminal is asked to do the events
   of what was read, in order. The loop ends early only at a failing read or at a failing write, after
   which nothing more is asked. An item left unfinished is dropped; failing to set a size changes nothing.
   */
  method Proxy(socket: Socket, terminal: Terminal) returns (ghost consumed: Bytes)
    requires !terminal.failed
    modifies socket, terminal
    ensures old(socket.incoming) == consumed + socket.incoming
    ensures !terminal.failed ==> terminal.log == old(terminal.log) + Events(consumed)
    ensures terminal.log <= old(terminal.log) + Events(consumed)
    ensures old(terminal.room).None? ==> !terminal.failed
    ensures !terminal.failed && None !in old(socket.pauses) ==> socket.incoming == []
  {
    hide Events, Rest;
    var buf := new u8[BUFFER_SIZE](_ => 0);
    var remainder := new DecodeInputRemainder.Default();
    consumed := [];
    EmptyMeans();
    while true
      invariant fresh(buf) && buf.Length == BUFFER_SIZE
      invariant fresh(remainder) && fresh(remainder.data) && remainder.Valid() && remainder.data != buf
      invariant old(socket.incoming) == consumed + socket.incoming
      invariant !terminal.failed && (terminal.room.None? <==> old(terminal.room).None?)
      invariant None !in old(socket.pauses) ==> None !in socket.pauses
      invariant terminal.log == old(terminal.log) + Events(consumed)
      invariant remainder.Contents() == Rest(consumed)
      decreases |socket.incoming|
    {
      ghost var before := socket.incoming;
      var end := ReadBehind(socket, buf, remainder);
      if end.None? {
        return;
      }
      ghost var piece := before[..|before| - |socket.incoming|];
      ReadMore(old(terminal.log), consumed, piece);
      Associative(consumed, piece, socket.incoming);
      var ok: bool;
      ok, remainder := DecodeInto(buf[..end.value], terminal, remainder);
      consumed := consumed + piece;
      if !ok {
        return;
      }
    }
  }

  /** A session that the client encodes is replayed on a working terminal event by event. */
  method Replay(session: seq<Message>, socket: Socket, terminal: Terminal)
    requires socket.incoming == EncodeAll(session) && None !in socket.pauses
    requires !terminal.failed && terminal.room.None?
    modifies socket, terminal
    ensures terminal.log == old(terminal.log) + EventsOf(session)
  {
    SessionRoundTrip(session);
    ghost var consumed := Proxy(socket, terminal);
    assert consumed == old(socket.incoming);
  }
}
