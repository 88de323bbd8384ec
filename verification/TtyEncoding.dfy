/**
 The byte stream that carries keyboard input and window sizes to a job's terminal
 (`maelstrom-base/src/tty.rs`): what a stream means, one event at a time, and the encoders.
 */
module TtyEncoding {
  import opened Integers
  import opened Sequences

  const ESCAPE: u8 := 0xff

  datatype WindowSize = WindowSize(rows: u16, columns: u16)

  /** What reaches the terminal: a byte of input or a new size. */
  datatype Event = Typed(b: u8) | Resized(size: WindowSize)

  function TypedAll(s: Bytes): (events: seq<Event>)
    ensures |events| == |s|
  {
    seq(|s|, i requires 0 <= i < |s| => Typed(s[i]))
  }

  function Word(high: u8, low: u8): u16 { high * 0x100 + low }

  // ----- What a byte stream means

  /** Too short to tell what it is the beginning of. */
  predicate Incomplete(s: Bytes) {
    || s == []
    || s == [ESCAPE]
    || (2 <= |s| < 6 && s[0] == ESCAPE && s[1] == 0)
  }

  /** The length of the first item of the stream. */
  function FirstLength(s: Bytes): (n: nat)
    requires !Incomplete(s)
    ensures 0 < n <= |s|
  {
    if s[0] != ESCAPE then 1 else if s[1] == 0 then 6 else 2
  }

  /** The events of the first item: an escape followed by anything but itself and zero is two bytes of input. */
  function First(s: Bytes): seq<Event>
    requires !Incomplete(s)
  {
    if s[0] != ESCAPE then [Typed(s[0])]
    else if s[1] == ESCAPE then [Typed(ESCAPE)]
    else if s[1] == 0 then [Resized(WindowSize(Word(s[2], s[3]), Word(s[4], s[5])))]
    else [Typed(ESCAPE), Typed(s[1])]
  }

  function Events(s: Bytes): seq<Event> {
    if Incomplete(s) then [] else First(s) + Events(s[FirstLength(s)..])
  }

  /** The bytes at the end of the stream that wait for more. */
  function Rest(s: Bytes): (r: Bytes)
    ensures |r| <= 5 && Incomplete(r)
  {
    if Incomplete(s) then s else Rest(s[FirstLength(s)..])
  }

  lemma {:induction false} FirstStands(s: Bytes, t: Bytes)
    requires !Incomplete(s)
    ensures Events(s + t) == First(s) + Events(s[FirstLength(s)..] + t)
    ensures Rest(s + t) == Rest(s[FirstLength(s)..] + t)
  {
    assert (s + t)[FirstLength(s)..] == s[FirstLength(s)..] + t;
  }

  /** The meaning of a stream does not depend on where it is cut, as long as the rest is carried over. */
  lemma {:induction false} CutAnywhere(s: Bytes, t: Bytes)
    ensures Events(s + t) == Events(s) + Events(Rest(s) + t)
    ensures Rest(s + t) == Rest(Rest(s) + t)
  {
    hide First, FirstLength, Incomplete;
    if Incomplete(s) {
      assert [] + Events(s + t) == Events(s + t);
    } else {
      var more := s[FirstLength(s)..];
      FirstStands(s, t);
      CutAnywhere(more, t);
      Associative(First(s), Events(more), Events(Rest(s) + t));
    }
  }

  /** A whole item at the front is decoded first. */
  lemma {:induction false} FrontItem(item: Bytes, t: Bytes)
    requires !Incomplete(item) && FirstLength(item) == |item|
    ensures Events(item + t) == First(item) + Events(t) && Rest(item + t) == Rest(t)
  {
    assert (item + t)[|item|..] == t;
  }

  /** What each kind of item is, byte by byte: a doubled escape is an escape, an escape before any other byte stands. */
  lemma {:induction false} ItemsMean(b: u8, rows: u16, columns: u16, t: Bytes)
    ensures b != 255 ==> Events([b] + t) == [Typed(b)] + Events(t) && Rest([b] + t) == Rest(t)
    ensures Events([255, 255] + t) == [Typed(255)] + Events(t) && Rest([255, 255] + t) == Rest(t)
    ensures b != 0 && b != 255 ==>
              Events([255, b] + t) == [Typed(255), Typed(b)] + Events(t) && Rest([255, b] + t) == Rest(t)
    ensures
      var item: Bytes := [255, 0, rows / 256, rows % 256, columns / 256, columns % 256];
      Events(item + t) == [Resized(WindowSize(rows, columns))] + Events(t) && Rest(item + t) == Rest(t)
  {
    if b != 255 {
      FrontItem([b], t);
    }
    FrontItem([255, 255], t);
    if b != 0 && b != 255 {
      FrontItem([255, b], t);
    }
    FrontItem([255, 0, rows / 256, rows % 256, columns / 256, columns % 256], t);
  }

  /** A beginning of an item means nothing yet and is kept whole. */
  lemma {:induction false} BeginningsWait(size: Bytes)
    requires |size| < 4
    ensures Events([]) == [] && Rest([]) == []
    ensures Events([255]) == [] && Rest([255]) == [255]
    ensures Events([255, 0] + size) == [] && Rest([255, 0] + size) == [255, 0] + size
  {
  }

  // ----- The encoders

  /** The index of the first escape, or the length if there is none. */
  function FindEscape(s: Bytes): (n: nat)
    ensures n <= |s| && ESCAPE !in s[..n]
    ensures n < |s| ==> s[n] == ESCAPE
  {
    if s == [] || s[0] == ESCAPE then 0
    else
      var n := 1 + FindEscape(s[1..]);
      assert s[..n] == [s[0]] + s[1..][..n - 1];
      n
  }

  /** The pieces between escapes; one more than there are escapes. */
  function Split(s: Bytes): (pieces: seq<Bytes>)
    ensures |pieces| > 0 && forall p :: p in pieces ==> ESCAPE !in p
    decreases |s|
  {
    var n := FindEscape(s);
    if n == |s| then [s] else [s[..n]] + Split(s[n + 1..])
  }

  /** A piece as sent: preceded by a doubled escape unless it is the first, left out if empty. */
  function SendPiece(piece: Bytes, isFirst: bool): seq<Bytes> {
    (if isFirst then [] else [[ESCAPE, ESCAPE]]) + (if piece == [] then [] else [piece])
  }

  function SendPieces(pieces: seq<Bytes>, isFirst: bool): seq<Bytes> {
    if pieces == [] then [] else SendPiece(pieces[0], isFirst) + SendPieces(pieces[1..], false)
  }

  function EncodeInput(s: Bytes): seq<Bytes> {
    SendPieces(Split(s), true)
  }

  function EncodeWindowSizeChange(size: WindowSize): (s: Bytes)
  {
    [ESCAPE, 0, size.rows / 0x100, size.rows % 0x100, size.columns / 0x100, size.columns % 0x100]
  }

  function Concat(pieces: seq<Bytes>): Bytes {
    if pieces == [] then [] else pieces[0] + Concat(pieces[1..])
  }

  lemma {:induction false} ConcatSum(a: seq<Bytes>, b: seq<Bytes>)
    ensures Concat(a + b) == Concat(a) + Concat(b)
  {
    if a == [] {
      assert a + b == b;
    } else {
      assert (a + b)[1..] == a[1..] + b;
      ConcatSum(a[1..], b);
    }
  }

  /** What was cut at escapes, put back together. */
  function Joined(pieces: seq<Bytes>): Bytes
    requires |pieces| > 0
  {
    if |pieces| == 1 then pieces[0] else pieces[0] + [ESCAPE] + Joined(pieces[1..])
  }

  lemma {:induction false} SplitJoins(s: Bytes)
    ensures Joined(Split(s)) == s
    decreases |s|
  {
    var n := FindEscape(s);
    if n == |s| {
    } else {
      SplitJoins(s[n + 1..]);
      assert Split(s)[1..] == Split(s[n + 1..]);
      assert s == s[..n] + [ESCAPE] + s[n + 1..];
    }
  }

  /** The pieces sent are never empty; each is a doubled escape or free of escapes. */
  lemma {:induction false} PiecesSent(pieces: seq<Bytes>, isFirst: bool)
    requires forall p :: p in pieces ==> ESCAPE !in p
    ensures forall p :: p in SendPieces(pieces, isFirst) ==> p == [ESCAPE, ESCAPE] || (p != [] && ESCAPE !in p)
  {
    if pieces == [] {
    } else {
      PiecesSent(pieces[1..], false);
    }
  }

  /** Every escape twice. */
  function Doubled(s: Bytes): Bytes {
    if s == [] then [] else (if s[0] == ESCAPE then [ESCAPE, ESCAPE] else [s[0]]) + Doubled(s[1..])
  }

  lemma {:induction false} DoubledSum(a: Bytes, b: Bytes)
    ensures Doubled(a + b) == Doubled(a) + Doubled(b)
    ensures ESCAPE !in a ==> Doubled(a) == a
  {
    if a == [] {
      assert a + b == b;
    } else {
      var item: Bytes := if a[0] == ESCAPE then [ESCAPE, ESCAPE] else [a[0]];
      assert (a + b)[1..] == a[1..] + b;
      DoubledSum(a[1..], b);
      Associative(item, Doubled(a[1..]), Doubled(b));
    }
  }

  lemma {:induction false} SentPieceBytes(piece: Bytes, isFirst: bool)
    requires ESCAPE !in piece
    ensures Concat(SendPiece(piece, isFirst)) == Doubled((if isFirst then [] else [ESCAPE]) + piece)
  {
    var mark: seq<Bytes> := if isFirst then [] else [[ESCAPE, ESCAPE]];
    var body: seq<Bytes> := if piece == [] then [] else [piece];
    ConcatSum(mark, body);
    assert body != [] ==> body[1..] == [];
    assert mark != [] ==> mark[1..] == [];
    DoubledSum([ESCAPE], piece);
    DoubledSum(piece, []);
    assert [] + piece == piece;
  }

  lemma {:induction false} SentPiecesBytes(pieces: seq<Bytes>, isFirst: bool)
    requires |pieces| > 0 && forall p :: p in pieces ==> ESCAPE !in p
    ensures Concat(SendPieces(pieces, isFirst)) == Doubled((if isFirst then [] else [ESCAPE]) + Joined(pieces))
  {
    hide Doubled;
    var mark: Bytes := if isFirst then [] else [ESCAPE];
    SentPieceBytes(pieces[0], isFirst);
    ConcatSum(SendPiece(pieces[0], isFirst), SendPieces(pieces[1..], false));
    if |pieces| == 1 {
      assert Concat(SendPieces(pieces[1..], false)) == [];
    } else {
      SentPiecesBytes(pieces[1..], false);
      DoubledSum(mark + pieces[0], [ESCAPE] + Joined(pieces[1..]));
      assert mark + Joined(pieces) == (mark + pieces[0]) + ([ESCAPE] + Joined(pieces[1..]));
    }
  }

  lemma {:induction false} DoubledMeans(s: Bytes, t: Bytes)
    ensures Events(Doubled(s) + t) == TypedAll(s) + Events(t) && Rest(Doubled(s) + t) == Rest(t)
  {
    if s == [] {
      assert Doubled(s) + t == t;
    } else {
      var item: Bytes := if s[0] == ESCAPE then [ESCAPE, ESCAPE] else [s[0]];
      var more := Doubled(s[1..]) + t;
      assert Doubled(s) + t == item + more;
      FrontItem(item, more);
      DoubledMeans(s[1..], t);
      TypedAllStep(s, Events(t));
    }
  }

  lemma TypedAllStep(s: Bytes, events: seq<Event>)
    requires s != []
    ensures TypedAll(s) + events == [Typed(s[0])] + (TypedAll(s[1..]) + events)
  {
  }

  /** A run without escapes is input, byte by byte. */
  lemma {:induction false} PlainRun(s: Bytes, t: Bytes)
    requires ESCAPE !in s
    ensures Events(s + t) == TypedAll(s) + Events(t) && Rest(s + t) == Rest(t)
  {
    DoubledSum(s, []);
    DoubledMeans(s, t);
  }

  /** Encoded input decodes to exactly the bytes that were typed, whatever follows. */
  lemma {:induction false} InputMeans(s: Bytes, t: Bytes)
    ensures Events(Concat(EncodeInput(s)) + t) == TypedAll(s) + Events(t)
    ensures Rest(Concat(EncodeInput(s)) + t) == Rest(t)
  {
    SplitJoins(s);
    SentPiecesBytes(Split(s), true);
    assert [] + s == s;
    DoubledMeans(s, t);
  }

  lemma {:induction false} ResizeMeans(size: WindowSize, t: Bytes)
    ensures Events(EncodeWindowSizeChange(size) + t) == [Resized(size)] + Events(t)
    ensures Rest(EncodeWindowSizeChange(size) + t) == Rest(t)
  {
    FrontItem(EncodeWindowSizeChange(size), t);
  }

  // ----- A session

  /** What the client sends: a burst of input or a new window size. */
  datatype Message = Keys(bytes: Bytes) | Resize(size: WindowSize)

  function EncodeAll(session: seq<Message>): Bytes {
    if session == [] then []
    else
      (match session[0]
       case Keys(bytes) => Concat(EncodeInput(bytes))
       case Resize(size) => EncodeWindowSizeChange(size))
      + EncodeAll(session[1..])
  }

  function EventsOf(session: seq<Message>): seq<Event> {
    if session == [] then []
    else
      (match session[0]
       case Keys(bytes) => TypedAll(bytes)
       case Resize(size) => [Resized(size)])
      + EventsOf(session[1..])
  }

  /** Every session decodes to its own events, with nothing left over. */
  lemma {:induction false} SessionRoundTrip(session: seq<Message>)
    ensures Events(EncodeAll(session)) == EventsOf(session) && Rest(EncodeAll(session)) == []
  {
    if session == [] {
    } else {
      SessionRoundTrip(session[1..]);
      match session[0] {
        case Keys(bytes) => InputMeans(bytes, EncodeAll(session[1..]));
        case Resize(size) => ResizeMeans(size, EncodeAll(session[1..]));
      }
    }
  }
}
