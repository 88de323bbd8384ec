/**
 The ring buffer (`maelstrom-base/src/ring_buffer.rs`). A slot that was never written, or was
 moved out of, is `None`: reading, moving out of or dropping such a slot would be undefined
 behaviour in the original, and every access here is proved to find `Some`.
 */
module RingBuffers {
  import opened Wrappers
  import opened Sequences

  /** The last elements of a sequence, at most `n`. */
  function LastOf<T>(s: seq<T>, n: nat): seq<T> {
    if |s| <= n then s else s[|s| - n..]
  }

  /** The slot of the `i`th oldest element. */
  function Slot(cursor: nat, i: nat, capacity: nat): nat {
    if cursor + i < capacity then cursor + i else cursor + i - capacity
  }

  /** The slots from `lo` to `hi` hold `s`. */
  ghost predicate Holds<T>(slots: seq<Option<T>>, lo: nat, hi: nat, s: seq<T>) {
    lo <= hi <= |slots| && |s| == hi - lo && forall i :: lo <= i < hi ==> slots[i] == Some(s[i - lo])
  }

  /** From the cursor on and around, the slots hold `contents`. */
  ghost predicate InOrder<T>(slots: seq<Option<T>>, cursor: nat, contents: seq<T>) {
    && cursor < |slots| && |contents| <= |slots|
    && forall i :: 0 <= i < |contents| ==> slots[Slot(cursor, i, |slots|)] == Some(contents[i])
  }

  lemma Advance(cursor: nat, n: nat)
    requires cursor < n
    ensures (cursor + 1) % n == if cursor + 1 == n then 0 else cursor + 1
  {
    if cursor + 1 == n {
      assert n % n == 0;
    }
  }

  lemma PushKeepsLast<T>(contents: seq<T>, x: T, n: nat)
    requires |contents| <= n && n > 0
    ensures LastOf(contents + [x], n) == if |contents| < n then contents + [x] else contents[1..] + [x]
  {
  }

  lemma Append<T>(slots: seq<Option<T>>, contents: seq<T>, x: T)
    requires InOrder(slots, 0, contents) && |contents| < |slots|
    ensures InOrder(slots[|contents| := Some(x)], 0, contents + [x])
  {
  }

  /** Over a full buffer's oldest element goes the newest, and the cursor moves on. */
  lemma Overwrite<T>(slots: seq<Option<T>>, cursor: nat, contents: seq<T>, x: T)
    requires InOrder(slots, cursor, contents) && |contents| == |slots|
    ensures slots[cursor].Some?
    ensures InOrder(slots[cursor := Some(x)], if cursor + 1 == |slots| then 0 else cursor + 1, contents[1..] + [x])
  {
    var n := |slots|;
    assert slots[Slot(cursor, 0, n)].Some?;
    var next := if cursor + 1 == n then 0 else cursor + 1;
    forall i | 0 <= i < n
      ensures slots[cursor := Some(x)][Slot(next, i, n)] == Some((contents[1..] + [x])[i])
    {
      if i < n - 1 {
        assert Slot(next, i, n) == Slot(cursor, i + 1, n) != cursor;
      } else {
        assert Slot(next, i, n) == cursor;
      }
    }
  }

  class RingBuffer<T> {
    const buf: array<Option<T>>
    var length: nat
    var cursor: nat
    ghost var contents: seq<T>

    ghost predicate Valid()
      reads this, buf
    {
      && length <= buf.Length && cursor < buf.Length
      && |contents| == length && InOrder(buf[..], cursor, contents)
      && (length < buf.Length ==> cursor == 0)
      && (forall i :: length <= i < buf.Length ==> buf[i] == None)
    }

    constructor (capacity: nat)
      requires capacity > 0
      ensures Valid() && fresh(buf) && buf.Length == capacity && contents == []
    {
      buf := new Option<T>[capacity](_ => None);
      length, cursor, contents := 0, 0, [];
    }

    /** Adds an element, in place of the oldest one if the buffer is full. */
    method Push(element: T)
      requires Valid()
      modifies this, buf
      ensures Valid() && contents == LastOf(old(contents) + [element], buf.Length)
    {
      hide InOrder, LastOf;
      PushKeepsLast(contents, element, buf.Length);
      if length < buf.Length {
        Append(buf[..], contents, element);
        buf[length] := Some(element);
        assert buf[..] == old(buf[..])[length := Some(element)];
        length := length + 1;
        contents := contents + [element];
      } else {
        Overwrite(buf[..], cursor, contents, element);
        Advance(cursor, buf.Length);
        assert buf[cursor].Some?;
        buf[cursor] := Some(element);
        assert buf[..] == old(buf[..])[cursor := Some(element)];
        cursor := (cursor + 1) % buf.Length;
        contents := contents[1..] + [element];
      }
    }

    /** The `i`th oldest element; index arithmetic stays between zero and the capacity. */
    method Get(i: nat) returns (r: Option<T>)
      requires Valid()
      ensures r == if i < |contents| then Some(contents[i]) else None
    {
      if i >= length {
        return None;
      }
      assert 0 < buf.Length - i <= buf.Length;
      var at := if cursor < buf.Length - i then cursor + i else cursor - (buf.Length - i);
      assert at == Slot(cursor, i, buf.Length) && buf[..][at].Some?;
      r := buf[at];
    }

    /** Drops every live slot once, oldest first; `dropped` is what was dropped. */
    method Drop() returns (ghost dropped: seq<T>)
      requires Valid()
      modifies buf
      ensures dropped == old(contents)
      ensures forall i :: 0 <= i < buf.Length ==> buf[i] == None
    {
      dropped := [];
      for i := cursor to length
        invariant dropped == contents[..i - cursor]
        invariant forall j :: 0 <= j < buf.Length ==> buf[j] == if cursor <= j < i then None else old(buf[j])
      {
        assert old(buf[..])[Slot(cursor, i - cursor, buf.Length)].Some?;
        dropped := dropped + [buf[i].value];
        buf[i] := None;
      }
      for i := 0 to cursor
        invariant dropped == contents[..length - cursor + i]
        invariant forall j :: 0 <= j < buf.Length ==>
                    buf[j] == if cursor <= j < length || j < i then None else old(buf[j])
      {
        assert old(buf[..])[Slot(cursor, length - cursor + i, buf.Length)].Some?;
        dropped := dropped + [buf[i].value];
        buf[i] := None;
      }
    }

    /** Moves the slots out, leaving unwritten ones behind. */
    method TakeSlots() returns (moved: array<Option<T>>)
      modifies buf
      ensures fresh(moved) && moved.Length == buf.Length && moved[..] == old(buf[..])
      ensures forall i :: 0 <= i < buf.Length ==> buf[i] == None
    {
      moved := new Option<T>[buf.Length](i requires 0 <= i < buf.Length reads this, buf => buf[i]);
      forall i | 0 <= i < buf.Length {
        buf[i] := None;
      }
    }

    /** Gives the elements away; the buffer is left empty. */
    method IntoIter() returns (it: IntoIter<T>)
      requires Valid()
      modifies this, buf
      ensures fresh(it) && fresh(it.buf) && it.Valid() && it.Remaining() == old(contents)
      ensures Valid() && contents == []
    {
      var moved := TakeSlots();
      assert forall i :: length <= i < buf.Length ==> moved[i] == moved[..][i] == None;
      hide InOrder, Holds, Slot;
      if length < buf.Length {
        SlotsFromZero(moved[..], contents);
        it := new IntoIter(moved, 0, length, 0, 0, contents, []);
        assert contents + [] == contents;
      } else {
        SlotsInOrder(moved[..], cursor, contents);
        ghost var first, rest := contents[..length - cursor], contents[length - cursor..];
        assert first + rest == contents;
        it := new IntoIter(moved, cursor, buf.Length, 0, cursor, first, rest);
      }
      length, cursor, contents := 0, 0, [];
      NothingInOrder(buf[..]);
    }
  }

  lemma NothingInOrder<T>(slots: seq<Option<T>>)
    requires |slots| > 0
    ensures InOrder(slots, 0, [])
  {
  }

  lemma SlotsFromZero<T>(slots: seq<Option<T>>, contents: seq<T>)
    requires InOrder(slots, 0, contents)
    ensures Holds(slots, 0, |contents|, contents) && Holds(slots, 0, 0, [])
  {
    assert forall i :: 0 <= i < |contents| ==> Slot(0, i, |slots|) == i;
  }

  /** A full buffer is its slots from the cursor on, followed by those before it. */
  lemma SlotsInOrder<T>(slots: seq<Option<T>>, cursor: nat, contents: seq<T>)
    requires InOrder(slots, cursor, contents) && |contents| == |slots|
    ensures Holds(slots, cursor, |slots|, contents[..|slots| - cursor])
    ensures Holds(slots, 0, cursor, contents[|slots| - cursor..])
  {
    forall j | 0 <= j < |slots|
      ensures slots[j] == Some(contents[if j < cursor then j + |slots| - cursor else j - cursor])
    {
      var i := if j < cursor then j + |slots| - cursor else j - cursor;
      assert Slot(cursor, i, |slots|) == j;
    }
  }

  /** The elements still to be given away are in two runs of slots; no other slot is live. */
  class IntoIter<T> {
    const buf: array<Option<T>>
    var firstBeg: nat
    var firstEnd: nat
    var restBeg: nat
    var restEnd: nat
    ghost var first: seq<T>
    ghost var rest: seq<T>

    ghost predicate Valid()
      reads this, buf
    {
      && Holds(buf[..], firstBeg, firstEnd, first) && Holds(buf[..], restBeg, restEnd, rest)
      && (firstBeg < firstEnd ==> restEnd <= firstBeg)
      && (forall i :: 0 <= i < buf.Length && !(firstBeg <= i < firstEnd) && !(restBeg <= i < restEnd) ==>
                        buf[i] == None)
    }

    ghost function Remaining(): seq<T>
      reads this
    {
      first + rest
    }

    constructor (buf: array<Option<T>>, firstBeg: nat, firstEnd: nat, restBeg: nat, restEnd: nat,
                 ghost first: seq<T>, ghost rest: seq<T>)
      requires Holds(buf[..], firstBeg, firstEnd, first) && Holds(buf[..], restBeg, restEnd, rest)
      requires restEnd <= firstBeg
      requires forall i :: 0 <= i < buf.Length && !(firstBeg <= i < firstEnd) && !(restBeg <= i < restEnd) ==>
                             buf[i] == None
      ensures Valid() && this.buf == buf && this.first == first && this.rest == rest
    {
      this.buf, this.firstBeg, this.firstEnd, this.restBeg, this.restEnd := buf, firstBeg, firstEnd, restBeg, restEnd;
      this.first, this.rest := first, rest;
    }

    /** The next element, moved out of its slot. */
    method Next() returns (r: Option<T>)
      requires Valid()
      modifies this, buf
      ensures Valid()
      ensures r.None? ==> old(Remaining()) == Remaining() == []
      ensures r.Some? ==> old(Remaining()) == [r.value] + Remaining()
    {
      if firstBeg < firstEnd {
        assert buf[..][firstBeg].Some?;
        r := buf[firstBeg];
        buf[firstBeg] := None;
        firstBeg := firstBeg + 1;
        first := first[1..];
      } else if restBeg < restEnd {
        assert buf[..][restBeg].Some?;
        r := buf[restBeg];
        buf[restBeg] := None;
        restBeg := restBeg + 1;
        rest := rest[1..];
        assert first == [];
      } else {
        r := None;
      }
    }

    method Len() returns (n: nat)
      requires Valid()
      ensures n == |Remaining()|
    {
      n := (firstEnd - firstBeg) + (restEnd - restBeg);
    }

    /** Drops what was not given away, each slot once. */
    method Drop() returns (ghost dropped: seq<T>)
      requires Valid()
      modifies buf
      ensures dropped == Remaining()
      ensures forall i :: 0 <= i < buf.Length ==> buf[i] == None
    {
      dropped := [];
      for i := firstBeg to firstEnd
        invariant dropped == first[..i - firstBeg]
        invariant forall j :: 0 <= j < buf.Length ==> buf[j] == if firstBeg <= j < i then None else old(buf[j])
      {
        assert old(buf[..])[i] == Some(first[i - firstBeg]);
        dropped := dropped + [buf[i].value];
        buf[i] := None;
      }
      for i := restBeg to restEnd
        invariant dropped == first + rest[..i - restBeg]
        invariant forall j :: 0 <= j < buf.Length ==>
                    buf[j] == if firstBeg <= j < firstEnd || restBeg <= j < i then None else old(buf[j])
      {
        assert old(buf[..])[i] == Some(rest[i - restBeg]);
        dropped := dropped + [buf[i].value];
        buf[i] := None;
      }
    }
  }

  // ----- Any sequence of pushes

  lemma NothingLast<T>(n: nat)
    ensures LastOf<T>([], n) == []
  {
  }

  lemma LastOfOneMore<T>(s: seq<T>, x: T, n: nat)
    requires n > 0
    ensures LastOf(LastOf(s, n) + [x], n) == LastOf(s + [x], n)
  {
  }

  /** A buffer filled from a sequence holds its last elements, oldest first. */
  method FromIter<T>(capacity: nat, items: seq<T>) returns (r: RingBuffer<T>)
    requires capacity > 0
    ensures fresh(r) && fresh(r.buf) && r.Valid() && r.buf.Length == capacity && r.contents == LastOf(items, capacity)
  {
    hide LastOf;
    NothingLast<T>(capacity);
    r := new RingBuffer(capacity);
    for i := 0 to |items|
      invariant fresh(r) && fresh(r.buf) && r.Valid() && r.buf.Length == capacity
      invariant r.contents == LastOf(items[..i], capacity)
    {
      LastOfOneMore(items[..i], items[i], capacity);
      assert items[..i + 1] == items[..i] + [items[i]];
      r.Push(items[i]);
    }
    assert items[..|items|] == items;
  }

  /** All the elements by index. */
  method ByIndex<T>(r: RingBuffer<T>) returns (elements: seq<T>)
    requires r.Valid()
    ensures elements == r.contents
  {
    elements := [];
    var element := r.Get(0);
    while element.Some?
      invariant |elements| <= |r.contents| && elements == r.contents[..|elements|]
      invariant element == if |elements| < |r.contents| then Some(r.contents[|elements|]) else None
      decreases |r.contents| - |elements|
    {
      elements := elements + [element.value];
      element := r.Get(|elements|);
    }
  }

  /** All the elements, given away. */
  method GiveAway<T>(it: IntoIter<T>) returns (elements: seq<T>)
    requires it.Valid()
    modifies it, it.buf
    ensures elements == old(it.Remaining())
  {
    elements := [];
    var next := it.Next();
    ghost var before := it.Remaining();
    while next.Some?
      invariant it.Valid() && before == it.Remaining()
      invariant old(it.Remaining()) == if next.Some? then elements + ([next.value] + before) else elements
      decreases next.Some?, |before|
    {
      Associative(elements, [next.value], before);
      assert before == [] ==> (elements + [next.value]) + before == elements + [next.value];
      elements := elements + [next.value];
      next := it.Next();
      before := it.Remaining();
    }
  }

  /** After any pushes, both ways of reading give the last elements pushed, oldest first. */
  method ReadAll<T>(capacity: nat, items: seq<T>) returns (byIndex: seq<T>, givenAway: seq<T>)
    requires capacity > 0
    ensures byIndex == givenAway == LastOf(items, capacity)
  {
    var r := FromIter(capacity, items);
    byIndex := ByIndex(r);
    var it := r.IntoIter();
    givenAway := GiveAway(it);
  }
}
