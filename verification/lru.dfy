/** The two caches of `pkg/server/lru.go`: a doubly linked list from most to least recently used, an index
    from key to list element, and a bound on the entry count or on the sum of value lengths. */
module Lru {
  import opened Wrappers
  import opened Hex
  import opened Recency

  class Element<V> {
    const key: string
    var value: V
    var prev: Element?<V>
    var next: Element?<V>

    constructor (key: string, value: V)
      ensures this.key == key && this.value == value && prev == null && next == null
    {
      this.key, this.value, prev, next := key, value, null, null;
    }
  }

  ghost predicate AllDistinct<V>(elems: seq<Element<V>>) {
    forall i, j :: 0 <= i < j < |elems| ==> elems[i] != elems[j]
  }

  lemma CutDistinctly<V>(elems: seq<Element<V>>, i: nat)
    requires i < |elems| && AllDistinct(elems)
    ensures var w := elems[..i] + elems[i + 1..];
            && AllDistinct(w)
            && (forall p :: 0 <= p < i ==> w[p] == elems[p])
            && forall p :: i <= p < |w| ==> w[p] == elems[p + 1]
  {
  }

  ghost function Moved<T>(s: seq<T>, i: nat): seq<T>
    requires i < |s|
  {
    [s[i]] + (s[..i] + s[i + 1..])
  }

  /** The part of `container/list` the caches use. */
  class LinkedList<V> {
    var front: Element?<V>
    var back: Element?<V>
    var length: nat
    ghost var elems: seq<Element<V>>

    ghost predicate Valid()
      reads this, elems
    {
      && length == |elems|
      && (forall i, j :: 0 <= i < j < |elems| ==> elems[i] != elems[j])
      && front == (if elems == [] then null else elems[0])
      && back == (if elems == [] then null else elems[|elems| - 1])
      && (forall i {:trigger elems[i].prev} :: 0 <= i < |elems| ==> elems[i].prev == (if i == 0 then null else elems[i - 1]))
      && (forall i {:trigger elems[i].next} :: 0 <= i < |elems| ==> elems[i].next == (if i == |elems| - 1 then null else elems[i + 1]))
    }

    constructor ()
      ensures Valid() && elems == []
    {
      front, back, length, elems := null, null, 0, [];
    }

    method PushFront(e: Element<V>)
      requires Valid() && e !in elems
      modifies this, elems, e
      ensures Valid() && elems == [e] + old(elems)
      ensures forall x :: x in elems ==> x.value == old(x.value)
    {
      e.prev, e.next := null, front;
      if front == null { back := e; } else { front.prev := e; }
      front := e;
      length := length + 1;
      elems := [e] + elems;
    }

    method Remove(e: Element<V>, ghost i: nat)
      requires Valid() && i < |elems| && elems[i] == e
      modifies this, elems
      ensures Valid() && elems == old(elems)[..i] + old(elems)[i + 1..]
      ensures forall x :: x in old(elems) ==> x.value == old(x.value)
    {
      CutDistinctly(elems, i);
      if e.prev == null { front := e.next; } else { e.prev.next := e.next; }
      if e.next == null { back := e.prev; } else { e.next.prev := e.prev; }
      length := length - 1;
      elems := elems[..i] + elems[i + 1..];
    }

    method MoveToFront(e: Element<V>, ghost i: nat)
      requires Valid() && i < |elems| && elems[i] == e
      modifies this, elems
      ensures Valid() && elems == Moved(old(elems), i)
      ensures forall x :: x in old(elems) ==> x.value == old(x.value)
    {
      if e == front {
        assert i == 0;
        assert elems == Moved(elems, 0);
        return;
      }
      Remove(e, i);
      PushFront(e);
    }

    method Init()
      modifies this
      ensures Valid() && elems == []
    {
      front, back, length, elems := null, null, 0, [];
    }
  }

  /** The index names exactly the list's elements, each under its own key. */
  ghost predicate Indexed<V>(index: map<string, Element<V>>, elems: seq<Element<V>>) {
    && AllDistinct(elems)
    && (forall i :: 0 <= i < |elems| ==> elems[i].key in index && index[elems[i].key] == elems[i])
    && (forall k :: k in index ==> index[k] in elems && index[k].key == k)
  }

  /** `contents` lists what the elements hold. */
  ghost predicate Holds<V>(elems: seq<Element<V>>, contents: Order<V>)
    reads elems
  {
    |contents| == |elems| && forall i :: 0 <= i < |elems| ==> contents[i] == Entry(elems[i].key, elems[i].value)
  }

  lemma IndexedPush<V>(index: map<string, Element<V>>, elems: seq<Element<V>>, e: Element<V>)
    requires Indexed(index, elems) && e.key !in index
    ensures Indexed(index[e.key := e], [e] + elems)
  {
  }

  /** Where the element at position `p` of a moved sequence came from. */
  ghost function Source(i: nat, p: nat): nat {
    if p == 0 then i else if p <= i then p - 1 else p
  }

  lemma MovedAt<T>(s: seq<T>, i: nat)
    requires i < |s|
    ensures |Moved(s, i)| == |s|
    ensures forall p :: 0 <= p < |s| ==> Moved(s, i)[p] == s[Source(i, p)]
    ensures forall x :: x in s ==> x in Moved(s, i)
  {
    var m := Moved(s, i);
    forall x | x in s ensures x in m {
      var p :| 0 <= p < |s| && s[p] == x;
      assert m[if p == i then 0 else if p < i then p + 1 else p] == x;
    }
  }

  lemma IndexedMove<V>(index: map<string, Element<V>>, elems: seq<Element<V>>, i: nat)
    requires Indexed(index, elems) && i < |elems|
    ensures Indexed(index, Moved(elems, i))
  {
    MovedAt(elems, i);
    hide Moved;
    var m := Moved(elems, i);
    forall p, q | 0 <= p < q < |m| ensures m[p] != m[q] {
      assert m[p] == elems[Source(i, p)] && m[q] == elems[Source(i, q)];
    }
  }

  lemma IndexedDropLast<V>(index: map<string, Element<V>>, elems: seq<Element<V>>)
    requires Indexed(index, elems) && elems != []
    ensures Indexed(index - {elems[|elems| - 1].key}, elems[..|elems| - 1])
  {
    var last, rest := elems[|elems| - 1], elems[..|elems| - 1];
    forall k | k in index && k != last.key ensures index[k] in rest {
      var p :| 0 <= p < |elems| && elems[p] == index[k];
      assert rest[p] == elems[p];
    }
    forall i | 0 <= i < |rest| ensures rest[i].key != last.key {
      assert index[rest[i].key] == rest[i];
    }
  }

  lemma HoldsMove<V>(elems: seq<Element<V>>, contents: Order<V>, i: nat)
    requires Holds(elems, contents) && i < |elems|
    ensures Holds(Moved(elems, i), Moved(contents, i))
  {
  }

  lemma HoldsPush<V>(elems: seq<Element<V>>, contents: Order<V>, e: Element<V>)
    requires Holds(elems, contents)
    ensures Holds([e] + elems, [Entry(e.key, e.value)] + contents)
  {
  }

  lemma HoldsDropLast<V>(elems: seq<Element<V>>, contents: Order<V>)
    requires Holds(elems, contents) && elems != []
    ensures Holds(elems[..|elems| - 1], contents[..|elems| - 1])
    ensures contents[|elems| - 1].value == elems[|elems| - 1].value
  {
  }

  /** What the index answers is what the order answers. */
  lemma IndexedLookup<V>(index: map<string, Element<V>>, elems: seq<Element<V>>, contents: Order<V>, k: string)
    returns (i: nat)
    requires Indexed(index, elems) && Holds(elems, contents)
    ensures DistinctKeys(contents)
    ensures k in index ==>
              && i < |elems| && elems[i] == index[k] && Lookup(contents, k) == Some(elems[i].value)
              && Without(contents, k) == contents[..i] + contents[i + 1..]
    ensures k !in index ==> Lookup(contents, k) == None && Without(contents, k) == contents
  {
    i := 0;
    forall p, q | 0 <= p < q < |contents| ensures contents[p].key != contents[q].key {
      assert index[elems[p].key] == elems[p] && index[elems[q].key] == elems[q];
    }
    if k in index {
      i :| 0 <= i < |elems| && elems[i] == index[k];
      LookupAt(contents, k, i);
    } else {
      LookupAbsent(contents, k);
    }
  }

  /** The list and its index, which both caches hold. */
  class KeyedList<V> {
    const list: LinkedList<V>
    var index: map<string, Element<V>>
    /** The cached entries, most recently used first. */
    ghost var contents: Order<V>
    ghost var repr: set<object>

    ghost predicate Valid()
      reads this, repr
      ensures Valid() ==> this in repr
    {
      && this in repr && list in repr && (forall e :: e in list.elems ==> e in repr)
      && list.Valid() && Indexed(index, list.elems) && Holds(list.elems, contents)
    }

    constructor ()
      ensures Valid() && contents == [] && fresh(repr)
    {
      list := new LinkedList();
      index := map[];
      contents := [];
      repr := {this, list};
    }

    /** What the index answers is what the order answers. */
    lemma Find(k: string) returns (i: nat)
      requires Valid()
      ensures DistinctKeys(contents)
      ensures k in index ==>
                && i < |list.elems| == |contents| && list.elems[i] == index[k]
                && Lookup(contents, k) == Some(index[k].value)
                && Moved(contents, i) == [Entry(k, index[k].value)] + Without(contents, k)
      ensures k !in index ==> Lookup(contents, k) == None && Without(contents, k) == contents
    {
      i := IndexedLookup(index, list.elems, contents, k);
    }

    predicate Contains(k: string)
      reads this
    {
      k in index
    }

    function Count(): (n: nat)
      requires Valid()
      reads this, repr
      ensures n == |contents|
    {
      list.length
    }

    /** MoveToFront of the element of `k`. */
    method Promote(k: string) returns (v: V)
      requires Valid() && Contains(k)
      modifies repr
      ensures Valid() && repr == old(repr) && Contains(k)
      ensures Lookup(old(contents), k) == Some(v)
      ensures contents == [Entry(k, v)] + Without(old(contents), k)
    {
      hide LinkedList.Valid, Indexed, Holds, DistinctKeys, Lookup, Without, Moved;
      ghost var i := Find(k);
      var el := index[k];
      v := el.value;
      MoveElement(el, i);
    }

    method MoveElement(el: Element<V>, ghost i: nat)
      requires Valid() && i < |list.elems| && list.elems[i] == el
      modifies repr
      ensures Valid() && repr == old(repr) && index == old(index)
      ensures contents == Moved(old(contents), i)
    {
      hide LinkedList.Valid, Indexed, Moved;
      ghost var elems := list.elems;
      IndexedMove(index, elems, i);
      MovedAt(elems, i);
      list.MoveToFront(el, i);
      assert Holds(elems, contents);
      HoldsMove(elems, contents, i);
      contents := Moved(contents, i);
    }

    /** Overwrite the value in front, which is that of `k`. */
    method SetFront(k: string, v: V)
      requires Valid() && Contains(k) && contents != [] && contents[0].key == k
      modifies repr
      ensures Valid() && repr == old(repr)
      ensures contents == [Entry(k, v)] + old(contents)[1..]
    {
      var el := index[k];
      assert el == list.elems[0];
      el.value := v;
      contents := [Entry(k, v)] + contents[1..];
    }

    method Insert(k: string, v: V)
      requires Valid() && !Contains(k)
      modifies repr
      ensures Valid() && fresh(repr - old(repr))
      ensures contents == [Entry(k, v)] + old(contents)
    {
      hide LinkedList.Valid, Indexed;
      var el := new Element(k, v);
      ghost var elems := list.elems;
      IndexedPush(index, elems, el);
      list.PushFront(el);
      assert Holds(elems, contents);
      HoldsPush(elems, contents, el);
      index := index[k := el];
      contents := [Entry(k, v)] + contents;
      repr := repr + {el};
    }

    lemma BackIsLast()
      requires Valid() && contents != []
      ensures list.elems != [] && list.back == list.elems[|list.elems| - 1]
    {
    }

    /** Remove the least recently used element. */
    method DropOldest() returns (v: V)
      requires Valid() && contents != []
      modifies repr
      ensures Valid() && repr == old(repr)
      ensures contents == old(contents)[..|old(contents)| - 1]
      ensures v == old(contents)[|old(contents)| - 1].value
    {
      hide LinkedList.Valid, Indexed;
      BackIsLast();
      var oldest := list.back;
      ghost var elems, n := list.elems, |list.elems| - 1;
      v := oldest.value;
      IndexedDropLast(index, elems);
      HoldsDropLast(elems, contents);
      list.Remove(oldest, n);
      assert list.elems == elems[..n];
      index := index - {oldest.key};
      contents := contents[..n];
    }

    method Clear()
      requires Valid()
      modifies repr
      ensures Valid() && contents == [] && repr == old(repr)
    {
      list.Init();
      index := map[];
      contents := [];
    }
  }

  /** An LRU bounded by the number of entries. */
  class EntryLru<V> {
    const cap: nat
    const entries: KeyedList<V>

    ghost function Contents(): Order<V>
      reads entries
    {
      entries.contents
    }

    ghost function Repr(): set<object>
      reads this, entries
    {
      entries.repr
    }

    ghost predicate Valid()
      reads this, entries, Repr()
    {
      1 <= cap && entries.Valid() && DistinctKeys(Contents()) && |Contents()| <= cap
    }

    constructor (capacity: int)
      ensures Valid() && Contents() == [] && fresh(Repr())
      ensures cap == if capacity <= 0 then 1 else capacity
    {
      cap := if capacity <= 0 then 1 else capacity;
      entries := new KeyedList();
    }

    method Get(k: string) returns (r: Option<V>)
      requires Valid()
      modifies Repr()
      ensures Valid() && Repr() == old(Repr())
      ensures r == Lookup(old(Contents()), k)
      ensures Contents() == Touch(old(Contents()), k)
    {
      hide KeyedList.Valid, DistinctKeys, Lookup, Without;
      var _ := entries.Find(k);
      if !entries.Contains(k) { return None; }
      TouchLaws(Contents(), k);
      var v := entries.Promote(k);
      r := Some(v);
    }

    method Put(k: string, v: V)
      requires Valid()
      modifies Repr()
      ensures Valid() && fresh(Repr() - old(Repr()))
      ensures Contents() == CountedPut(old(Contents()), cap, k, v)
    {
      hide KeyedList.Valid, DistinctKeys, Has, Lookup, Without;
      var _ := entries.Find(k);
      ghost var o := Contents();
      CountedPutLaws(o, cap, k, v);
      LookupHas(o, k);
      if entries.Contains(k) {
        var _ := entries.Promote(k);
        entries.SetFront(k, v);
        return;
      }
      entries.Insert(k, v);
      if entries.Count() > cap {
        var _ := entries.DropOldest();
      }
    }

    method Clear()
      requires Valid()
      modifies Repr()
      ensures Valid() && Contents() == [] && Repr() == old(Repr())
    {
      entries.Clear();
    }
  }

  /** One turn of the eviction loop takes one step of `Evict`. */
  lemma EvictStep(o: Order<Bytes>, cap: nat)
    requires TotalBytes(o) > cap
    ensures o != [] && Evict(o, cap) == Evict(o[..|o| - 1], cap)
    ensures TotalBytes(o) == TotalBytes(o[..|o| - 1]) + |o[|o| - 1].value|
  {
    var n := |o| - 1;
    assert o == o[..n] + [o[n]];
    TotalOfConcat(o[..n], [o[n]]);
  }

  lemma EvictDone(o: Order<Bytes>, cap: nat)
    requires TotalBytes(o) <= cap
    ensures Evict(o, cap) == o
  {
  }

  /** An LRU bounded by the sum of the lengths of its values. */
  class ByteBudgetLru {
    const cap: nat
    const entries: KeyedList<Bytes>
    var totalBytes: int

    ghost function Contents(): Order<Bytes>
      reads entries
    {
      entries.contents
    }

    ghost function Repr(): set<object>
      reads this, entries
    {
      {this} + entries.repr
    }

    ghost predicate Valid()
      reads this, entries, Repr()
    {
      && 1 <= cap && this !in entries.repr && entries.Valid() && DistinctKeys(Contents())
      && totalBytes == TotalBytes(Contents()) <= cap
    }

    constructor (capBytes: int)
      ensures Valid() && Contents() == [] && fresh(Repr())
      ensures cap == if capBytes <= 0 then 1 else capBytes
    {
      cap := if capBytes <= 0 then 1 else capBytes;
      entries := new KeyedList();
      totalBytes := 0;
    }

    method Get(k: string) returns (r: Option<Bytes>)
      requires Valid()
      modifies Repr()
      ensures Valid() && Repr() == old(Repr())
      ensures r == Lookup(old(Contents()), k)
      ensures Contents() == Touch(old(Contents()), k)
    {
      hide KeyedList.Valid, DistinctKeys, Lookup, Without, TotalBytes;
      var _ := entries.Find(k);
      if !entries.Contains(k) { return None; }
      TouchLaws(Contents(), k);
      TotalOfTouch(Contents(), k);
      var v := entries.Promote(k);
      r := Some(v);
    }

    /** Returns whether the value was accepted. */
    method Put(k: string, v: Bytes) returns (accepted: bool)
      requires Valid()
      modifies Repr()
      ensures Valid() && fresh(Repr() - old(Repr()))
      ensures accepted == (|v| <= cap)
      ensures Contents() == BudgetPut(old(Contents()), cap, k, v)
    {
      hide KeyedList.Valid, DistinctKeys, Has, Lookup, Without, TotalBytes, Evict;
      if |v| > cap { return false; }
      ghost var o := Contents();
      BudgetPutLaws(o, cap, k, v);
      var _ := entries.Find(k);
      TotalOfTouch(o, k);
      TotalOfFront(Entry(k, v), Without(o, k));
      if entries.Contains(k) {
        var old_ := entries.Promote(k);
        totalBytes := totalBytes - |old_|;
        entries.SetFront(k, v);
        totalBytes := totalBytes + |v|;
      } else {
        entries.Insert(k, v);
        totalBytes := totalBytes + |v|;
      }
      ghost var grown := [Entry(k, v)] + Without(o, k);
      while totalBytes > cap
        invariant entries.Valid() && this !in entries.repr && fresh(Repr() - old(Repr()))
        invariant totalBytes == TotalBytes(Contents())
        invariant Evict(Contents(), cap) == Evict(grown, cap)
        decreases |Contents()|
      {
        EvictStep(Contents(), cap);
        if entries.Count() == 0 { break; }
        var dropped := entries.DropOldest();
        totalBytes := totalBytes - |dropped|;
      }
      EvictDone(Contents(), cap);
      return true;
    }

    method Clear()
      requires Valid()
      modifies Repr()
      ensures Valid() && Contents() == [] && Repr() == old(Repr())
    {
      entries.Clear();
      totalBytes := 0;
    }
  }
}
