/**
 What an ordered directory means, with no tree in sight: its entries as a list in key
 order, and the list operations that the tree's operations must amount to.
 */
module SortedItems {
  import opened Wrappers
  import opened DirectoryRecords
  import opened KeyOrder

  /** A directory entry and the pointer of the node that holds it. */
  datatype Item = Item(ptr: Ptr, key: Key, value: EntryData)

  ghost predicate AllBelow(s: seq<Item>, key: Key) {
    forall i :: 0 <= i < |s| ==> Lt(s[i].key, key)
  }

  ghost predicate AllAbove(s: seq<Item>, key: Key) {
    forall i :: 0 <= i < |s| ==> Lt(key, s[i].key)
  }

  ghost predicate Sorted(s: seq<Item>) {
    forall i, j :: 0 <= i < j < |s| ==> Lt(s[i].key, s[j].key)
  }

  ghost predicate HasKey(s: seq<Item>, key: Key) {
    exists i :: 0 <= i < |s| && s[i].key == key
  }

  // ----- Inserting

  function InsertItem(s: seq<Item>, x: Item): (r: seq<Item>)
    ensures |r| == |s| + 1
  {
    if s == [] || Lt(x.key, s[0].key) then [x] + s else [s[0]] + InsertItem(s[1..], x)
  }

  lemma {:induction false} InsertItemBetween(a: seq<Item>, x: Item, b: seq<Item>)
    requires AllBelow(a, x.key) && AllAbove(b, x.key)
    ensures InsertItem(a + b, x) == a + [x] + b
  {
    if a == [] {
      assert a + b == b;
    } else {
      var k := a[0].key;
      CompareFlip(k, x.key);
      CompareFlip(x.key, k);
      InsertItemBetween(a[1..], x, b);
      assert (a + b)[1..] == a[1..] + b;
      assert [a[0]] + (a[1..] + [x] + b) == a + [x] + b;
    }
  }

  /** A sorted list splits around any absent key. */
  lemma {:induction false} SplitAround(s: seq<Item>, key: Key) returns (n: nat)
    requires Sorted(s) && !HasKey(s, key)
    ensures n <= |s| && AllBelow(s[..n], key) && AllAbove(s[n..], key)
  {
    if s == [] {
      n := 0;
    } else {
      CompareEqual(key, s[0].key);
      CompareFlip(key, s[0].key);
      if Lt(key, s[0].key) {
        n := 0;
        forall i | 0 < i < |s| ensures Lt(key, s[i].key) {
          LtTransitive(key, s[0].key, s[i].key);
        }
      } else {
        assert !HasKey(s[1..], key);
        n := SplitAround(s[1..], key);
        n := n + 1;
        assert s[..n] == [s[0]] + s[1..][..n - 1];
      }
    }
  }

  lemma {:induction false} InsertItemSorted(s: seq<Item>, x: Item)
    requires Sorted(s) && !HasKey(s, x.key)
    ensures Sorted(InsertItem(s, x))
  {
    var n := SplitAround(s, x.key);
    var a, b := s[..n], s[n..];
    assert s == a + b;
    InsertItemBetween(a, x, b);
    SortedBetween(a, x, b);
  }

  lemma SortedBetween(a: seq<Item>, x: Item, b: seq<Item>)
    requires Sorted(a + b) && AllBelow(a, x.key) && AllAbove(b, x.key)
    ensures Sorted(a + [x] + b)
  {
    var s, r := a + b, a + [x] + b;
    forall i, j | 0 <= i < j < |r| ensures Lt(r[i].key, r[j].key) {
      if i != |a| && j != |a| {
        var i', j' := if i < |a| then i else i - 1, if j < |a| then j else j - 1;
        assert r[i] == s[i'] && r[j] == s[j'];
      } else if i == |a| {
        assert r[j] == b[j - |a| - 1];
      }
    }
  }

  // ----- Looking up

  function Find(s: seq<Item>, key: Key): Option<EntryData> {
    if s == [] then None else if s[0].key == key then Some(s[0].value) else Find(s[1..], key)
  }

  lemma {:induction false} FindAbsent(s: seq<Item>, key: Key)
    ensures Find(s, key) == None <==> !HasKey(s, key)
  {
    if s == [] {
    } else {
      FindAbsent(s[1..], key);
      if HasKey(s[1..], key) {
        var i :| 0 <= i < |s[1..]| && s[1..][i].key == key;
        assert s[i + 1].key == key;
      }
      if HasKey(s, key) && s[0].key != key {
        var i :| 0 <= i < |s| && s[i].key == key;
        assert s[1..][i - 1].key == key;
      }
    }
  }

  lemma {:induction false} FindBetween(a: seq<Item>, x: Item, b: seq<Item>)
    requires AllBelow(a, x.key)
    ensures Find(a + [x] + b, x.key) == Some(x.value)
  {
    var s := a + [x] + b;
    if a == [] {
    } else {
      LtIrreflexive(x.key);
      assert a[0].key != x.key;
      FindBetween(a[1..], x, b);
      assert s[1..] == a[1..] + [x] + b;
    }
  }

  // ----- Replacing a value

  function SetValue(s: seq<Item>, key: Key, value: EntryData): (r: seq<Item>)
    ensures |r| == |s|
    ensures forall i :: 0 <= i < |s| ==> r[i] == if s[i].key == key then s[i].(value := value) else s[i]
  {
    if s == [] then []
    else [if s[0].key == key then s[0].(value := value) else s[0]] + SetValue(s[1..], key, value)
  }

  lemma {:induction false} SetValueBetween(a: seq<Item>, x: Item, b: seq<Item>, value: EntryData)
    requires AllBelow(a, x.key) && AllAbove(b, x.key)
    ensures SetValue(a + [x] + b, x.key, value) == a + [x.(value := value)] + b
  {
    LtIrreflexive(x.key);
  }

  lemma {:induction false} SetValueSorted(s: seq<Item>, key: Key, value: EntryData)
    requires Sorted(s)
    ensures Sorted(SetValue(s, key, value))
  {
  }

  // ----- The directory as a map from names to data

  /** Inserting an absent key adds exactly that binding. */
  lemma {:induction false} FindAfterInsert(s: seq<Item>, x: Item, key: Key)
    requires !HasKey(s, x.key)
    ensures Find(InsertItem(s, x), key) == if key == x.key then Some(x.value) else Find(s, key)
  {
    if s == [] || Lt(x.key, s[0].key) {
      assert ([x] + s)[1..] == s;
      FindAbsent(s, key);
    } else {
      assert s[0].key != x.key;
      assert forall i :: 0 <= i < |s[1..]| ==> s[1..][i] == s[i + 1];
      FindAfterInsert(s[1..], x, key);
      assert InsertItem(s, x)[1..] == InsertItem(s[1..], x);
    }
  }

  /** Replacing the value of a present key changes exactly that binding. */
  lemma {:induction false} FindAfterSet(s: seq<Item>, name: Key, value: EntryData, key: Key)
    requires HasKey(s, name)
    ensures Find(SetValue(s, name, value), key) == if key == name then Some(value) else Find(s, key)
  {
    FindAbsent(s, name);
    var r := SetValue(s, name, value);
    assert r[1..] == SetValue(s[1..], name, value);
    if s[0].key != name {
      FindAbsent(s[1..], name);
      FindAfterSet(s[1..], name, value, key);
    } else if key != name {
      FindUnchanged(s[1..], name, value, key);
    }
  }

  lemma {:induction false} FindUnchanged(s: seq<Item>, name: Key, value: EntryData, key: Key)
    requires key != name
    ensures Find(SetValue(s, name, value), key) == Find(s, key)
  {
    if s == [] {
    } else {
      FindUnchanged(s[1..], name, value, key);
      assert SetValue(s, name, value)[1..] == SetValue(s[1..], name, value);
    }
  }

  /** A sorted list lists every binding of the map: what is found at a key is an item with that key. */
  lemma {:induction false} FindAt(s: seq<Item>, i: nat)
    requires Sorted(s) && i < |s|
    ensures Find(s, s[i].key) == Some(s[i].value)
  {
    FindBetween(s[..i], s[i], s[i + 1..]);
    assert s == s[..i] + [s[i]] + s[i + 1..];
  }
}
