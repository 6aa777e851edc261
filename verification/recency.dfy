/** What an LRU cache is, as a value: its entries from most to least recently used. */
module Recency {
  import opened Wrappers
  import opened Hex

  datatype Entry<V> = Entry(key: string, value: V)
  type Order<V> = seq<Entry<V>>

  predicate DistinctKeys<V>(o: Order<V>) {
    forall i, j :: 0 <= i < j < |o| ==> o[i].key != o[j].key
  }

  ghost predicate Has<V>(o: Order<V>, k: string) {
    exists i :: 0 <= i < |o| && o[i].key == k
  }

  function Lookup<V>(o: Order<V>, k: string): Option<V> {
    if o == [] then None else if o[0].key == k then Some(o[0].value) else Lookup(o[1..], k)
  }

  lemma FoundInSome<V>(o: Order<V>, k: string)
    ensures Lookup(o, k).Some? ==> o != []
  {
  }

  /** The order with the entry of `k`, if any, taken out. */
  function Without<V>(o: Order<V>, k: string): Order<V> {
    if o == [] then [] else if o[0].key == k then o[1..] else [o[0]] + Without(o[1..], k)
  }

  /** Get: a hit moves its entry to the front. */
  function Touch<V>(o: Order<V>, k: string): Order<V> {
    match Lookup(o, k)
    case Some(v) => [Entry(k, v)] + Without(o, k)
    case None => o
  }

  /** Put of the entry-counted cache. */
  function CountedPut<V>(o: Order<V>, cap: nat, k: string, v: V): Order<V> {
    var grown := [Entry(k, v)] + Without(o, k);
    if |grown| > cap then grown[..|grown| - 1] else grown
  }

  function TotalBytes(o: Order<Bytes>): nat {
    if o == [] then 0 else |o[0].value| + TotalBytes(o[1..])
  }

  /** Drop from the back until the total fits. */
  function Evict(o: Order<Bytes>, cap: nat): Order<Bytes> {
    if o == [] || TotalBytes(o) <= cap then o else Evict(o[..|o| - 1], cap)
  }

  /** Put of the byte-budget cache. */
  function BudgetPut(o: Order<Bytes>, cap: nat, k: string, v: Bytes): Order<Bytes> {
    if |v| > cap then o else Evict([Entry(k, v)] + Without(o, k), cap)
  }

  // ---------------------------------------------------------------------------
  // Lookup and removal
  // ---------------------------------------------------------------------------

  lemma {:induction false} LookupAt<V>(o: Order<V>, k: string, i: nat)
    requires DistinctKeys(o) && i < |o| && o[i].key == k
    ensures Lookup(o, k) == Some(o[i].value)
    ensures Without(o, k) == o[..i] + o[i + 1..]
  {
    if i == 0 {
      assert o[..0] + o[1..] == o[1..];
    } else {
      LookupAt(o[1..], k, i - 1);
      assert o[..i] == [o[0]] + o[1..][..i - 1] && o[i + 1..] == o[1..][i..];
    }
  }

  lemma {:induction false} LookupAbsent<V>(o: Order<V>, k: string)
    requires !Has(o, k)
    ensures Lookup(o, k) == None && Without(o, k) == o
  {
    if o == [] {
    } else {
      assert forall i :: 0 <= i < |o[1..]| ==> o[1..][i] == o[i + 1];
      LookupAbsent(o[1..], k);
    }
  }

  lemma LookupHas<V>(o: Order<V>, k: string)
    requires DistinctKeys(o)
    ensures Lookup(o, k).Some? <==> Has(o, k)
  {
    if Has(o, k) {
      var i :| 0 <= i < |o| && o[i].key == k;
      LookupAt(o, k, i);
    } else {
      LookupAbsent(o, k);
    }
  }

  lemma CutDistinct<V>(o: Order<V>, i: nat)
    requires DistinctKeys(o) && i < |o|
    ensures var w := o[..i] + o[i + 1..];
            && DistinctKeys(w)
            && (forall p :: 0 <= p < i ==> w[p] == o[p])
            && forall p :: i <= p < |w| ==> w[p] == o[p + 1]
  {
  }

  lemma WithoutLookup<V>(o: Order<V>, i: nat, j: string)
    requires DistinctKeys(o) && i < |o| && o[i].key != j
    ensures Lookup(o[..i] + o[i + 1..], j) == Lookup(o, j)
  {
    CutDistinct(o, i);
    var w := o[..i] + o[i + 1..];
    if p :| 0 <= p < |o| && o[p].key == j {
      LookupAt(o, j, p);
      var q := if p < i then p else p - 1;
      assert w[q] == o[p];
      LookupAt(w, j, q);
    } else {
      LookupAbsent(o, j);
      LookupAbsent(w, j);
    }
  }

  /** What is left without a key: the other entries, in order. */
  lemma WithoutLaws<V>(o: Order<V>, k: string)
    requires DistinctKeys(o)
    ensures DistinctKeys(Without(o, k)) && !Has(Without(o, k), k) && |Without(o, k)| <= |o|
    ensures forall j :: j != k ==> Lookup(Without(o, k), j) == Lookup(o, j)
  {
    if i :| 0 <= i < |o| && o[i].key == k {
      LookupAt(o, k, i);
      CutDistinct(o, i);
      assert !Has(o[..i] + o[i + 1..], k);
      hide DistinctKeys;
      forall j | j != k ensures Lookup(Without(o, k), j) == Lookup(o, j) { WithoutLookup(o, i, j); }
    } else {
      LookupAbsent(o, k);
    }
  }

  /** Putting an entry in front of an order that lost its key. */
  lemma FrontLaws<V>(o: Order<V>, k: string, v: V)
    requires DistinctKeys(o)
    ensures var g := [Entry(k, v)] + Without(o, k);
            DistinctKeys(g) && Lookup(g, k) == Some(v) && forall j :: j != k ==> Lookup(g, j) == Lookup(o, j)
  {
    WithoutLaws(o, k);
    var w := Without(o, k);
    var g := [Entry(k, v)] + w;
    assert g[1..] == w;
    forall i, j | 0 <= i < j < |g| ensures g[i].key != g[j].key {
      assert g[j] == w[j - 1];
      if i > 0 { assert g[i] == w[i - 1]; }
    }
  }

  lemma RotationKeepsElements<T>(s: seq<T>, i: nat)
    requires i < |s|
    ensures multiset([s[i]] + (s[..i] + s[i + 1..])) == multiset(s)
  {
    assert s == s[..i] + [s[i]] + s[i + 1..];
  }

  /** A hit changes the order only: same entries, the hit one first. */
  lemma TouchLaws<V>(o: Order<V>, k: string)
    requires DistinctKeys(o)
    ensures DistinctKeys(Touch(o, k)) && multiset(Touch(o, k)) == multiset(o)
    ensures forall j :: Lookup(Touch(o, k), j) == Lookup(o, j)
    ensures Lookup(o, k).Some? ==> Touch(o, k)[0] == Entry(k, Lookup(o, k).value)
  {
    LookupHas(o, k);
    if Has(o, k) {
      hide DistinctKeys;
      var i :| 0 <= i < |o| && o[i].key == k;
      LookupAt(o, k, i);
      FrontLaws(o, k, o[i].value);
      RotationKeepsElements(o, i);
    }
  }

  /** A miss leaves the order alone. */
  lemma TouchMiss<V>(o: Order<V>, k: string)
    ensures Lookup(o, k).None? ==> Touch(o, k) == o
  {}

  // ---------------------------------------------------------------------------
  // The two Puts
  // ---------------------------------------------------------------------------

  /** An accepted Put keeps its own key, in front; every other key keeps its value or is gone; the count
      never passes the cap; and only the last entry of a full cache of other keys is dropped. */
  lemma CountedPutLaws<V>(o: Order<V>, cap: nat, k: string, v: V)
    requires DistinctKeys(o) && |o| <= cap && cap >= 1
    ensures var r := CountedPut(o, cap, k, v);
            && DistinctKeys(r) && 1 <= |r| <= cap && r[0] == Entry(k, v) && Lookup(r, k) == Some(v)
            && (Has(o, k) || |o| < cap ==> r == [Entry(k, v)] + Without(o, k))
            && (!Has(o, k) && |o| == cap ==> r == [Entry(k, v)] + o[..cap - 1])
  {
    FrontLaws(o, k, v);
    WithoutLaws(o, k);
    if Has(o, k) {
      var i :| 0 <= i < |o| && o[i].key == k;
      LookupAt(o, k, i);
    } else {
      LookupAbsent(o, k);
      var g := [Entry(k, v)] + o;
      if |o| == cap { assert g[..cap] == [Entry(k, v)] + o[..cap - 1]; }
    }
  }

  lemma {:induction false} TotalOfConcat(a: Order<Bytes>, b: Order<Bytes>)
    ensures TotalBytes(a + b) == TotalBytes(a) + TotalBytes(b)
  {
    if a == [] {
      assert a + b == b;
    } else {
      assert (a + b)[1..] == a[1..] + b;
      TotalOfConcat(a[1..], b);
    }
  }

  /** Eviction drops exactly the shortest suffix that brings the total under the cap: what stays is the
      longest prefix that fits. */
  lemma {:induction false} EvictIsLongestFittingPrefix(o: Order<Bytes>, cap: nat)
    ensures var r := Evict(o, cap);
            && |r| <= |o| && r == o[..|r|] && TotalBytes(r) <= cap
            && forall n :: |r| < n <= |o| ==> TotalBytes(o[..n]) > cap
  {
    if o == [] || TotalBytes(o) <= cap {
      assert o[..|o|] == o;
    } else {
      var shorter := o[..|o| - 1];
      EvictIsLongestFittingPrefix(shorter, cap);
      var r := Evict(o, cap);
      assert r == shorter[..|r|] == o[..|r|];
      forall n | |r| < n <= |o| ensures TotalBytes(o[..n]) > cap {
        if n < |o| { assert o[..n] == shorter[..n]; } else { assert o[..n] == o; }
      }
    }
  }

  /** An accepted Put keeps its own key, in front, stays within the budget and evicts only the shortest
      least-recent suffix; a rejected Put changes nothing. */
  lemma BudgetPutLaws(o: Order<Bytes>, cap: nat, k: string, v: Bytes)
    requires DistinctKeys(o) && TotalBytes(o) <= cap
    ensures var r := BudgetPut(o, cap, k, v);
            && DistinctKeys(r) && TotalBytes(r) <= cap
            && (|v| > cap ==> r == o)
            && (|v| <= cap ==>
                  var grown := [Entry(k, v)] + Without(o, k);
                  && 1 <= |r| <= |grown| && r == grown[..|r|] && r[0] == Entry(k, v)
                  && forall n :: |r| < n <= |grown| ==> TotalBytes(grown[..n]) > cap)
  {
    if |v| <= cap {
      var grown := [Entry(k, v)] + Without(o, k);
      FrontLaws(o, k, v);
      EvictIsLongestFittingPrefix(grown, cap);
      var r := Evict(grown, cap);
      assert grown[..1] == [Entry(k, v)];
      assert TotalBytes([Entry(k, v)]) == |v|;
      assert |r| >= 1;
    }
  }

  /** A cached value is the last one put under its key. */
  lemma PrefixLookup<V>(o: Order<V>, n: nat, k: string)
    requires DistinctKeys(o) && n <= |o|
    ensures DistinctKeys(o[..n])
    ensures Lookup(o[..n], k).Some? ==> Lookup(o[..n], k) == Lookup(o, k)
  {
    LookupHas(o[..n], k);
    if Has(o[..n], k) {
      var i :| 0 <= i < |o[..n]| && o[..n][i].key == k;
      LookupAt(o[..n], k, i);
      LookupAt(o, k, i);
    }
  }

  /** After an accepted byte-budget Put the key reads back as the value, and no other key ever reads back
      as something it was not. */
  lemma BudgetPutReads(o: Order<Bytes>, cap: nat, k: string, v: Bytes, j: string)
    requires DistinctKeys(o) && TotalBytes(o) <= cap
    ensures var r := BudgetPut(o, cap, k, v);
            && (|v| <= cap ==> Lookup(r, k) == Some(v))
            && (Lookup(r, j).Some? ==> Lookup(r, j) == if j == k && |v| <= cap then Some(v) else Lookup(o, j))
  {
    BudgetPutLaws(o, cap, k, v);
    if |v| <= cap {
      var grown := [Entry(k, v)] + Without(o, k);
      FrontLaws(o, k, v);
      var r := BudgetPut(o, cap, k, v);
      PrefixLookup(grown, |r|, j);
    }
  }

  lemma CountedPutReads<V>(o: Order<V>, cap: nat, k: string, v: V, j: string)
    requires DistinctKeys(o) && |o| <= cap && cap >= 1
    ensures var r := CountedPut(o, cap, k, v);
            Lookup(r, j).Some? ==> Lookup(r, j) == if j == k then Some(v) else Lookup(o, j)
  {
    var grown := [Entry(k, v)] + Without(o, k);
    FrontLaws(o, k, v);
    var r := CountedPut(o, cap, k, v);
    assert r == grown[..|r|];
    PrefixLookup(grown, |r|, j);
  }

  // ---------------------------------------------------------------------------
  // Whole runs
  // ---------------------------------------------------------------------------

  datatype CacheOp<V> = GetOp(key: string) | PutOp(key: string, value: V) | ClearOp

  function BudgetRun(ops: seq<CacheOp<Bytes>>, cap: nat): Order<Bytes> {
    if ops == [] then []
    else
      var o := BudgetRun(ops[..|ops| - 1], cap);
      match ops[|ops| - 1]
      case GetOp(k) => Touch(o, k)
      case PutOp(k, v) => BudgetPut(o, cap, k, v)
      case ClearOp => []
  }

  function CountedRun<V>(ops: seq<CacheOp<V>>, cap: nat): Order<V> {
    if ops == [] then []
    else
      var o := CountedRun(ops[..|ops| - 1], cap);
      match ops[|ops| - 1]
      case GetOp(k) => Touch(o, k)
      case PutOp(k, v) => CountedPut(o, cap, k, v)
      case ClearOp => []
  }

  /** The value of the last Put of `k` that fitted the bound since the last Clear. */
  function LastPut<V>(ops: seq<CacheOp<V>>, fits: V -> bool, k: string): Option<V> {
    if ops == [] then None
    else
      match ops[|ops| - 1]
      case ClearOp => None
      case PutOp(j, v) => if j == k && fits(v) then Some(v) else LastPut(ops[..|ops| - 1], fits, k)
      case GetOp(_) => LastPut(ops[..|ops| - 1], fits, k)
  }

  lemma TotalOfFront(e: Entry<Bytes>, o: Order<Bytes>)
    ensures TotalBytes([e] + o) == |e.value| + TotalBytes(o)
  {
    assert ([e] + o)[1..] == o;
  }

  lemma TakenOut(o: Order<Bytes>, i: nat)
    requires i < |o|
    ensures TotalBytes(o) == |o[i].value| + TotalBytes(o[..i] + o[i + 1..])
    ensures TotalBytes([o[i]] + (o[..i] + o[i + 1..])) == TotalBytes(o)
  {
    hide TotalBytes;
    TotalOfFront(o[i], o[..i] + o[i + 1..]);
    assert o == o[..i] + ([o[i]] + o[i + 1..]);
    TotalOfConcat(o[..i], [o[i]] + o[i + 1..]);
    TotalOfFront(o[i], o[i + 1..]);
    TotalOfConcat(o[..i], o[i + 1..]);
  }

  /** Taking an entry out gives back its length; putting it in front changes nothing. */
  lemma TotalOfTouch(o: Order<Bytes>, k: string)
    requires DistinctKeys(o)
    ensures TotalBytes(Touch(o, k)) == TotalBytes(o)
    ensures match Lookup(o, k)
            case None => Without(o, k) == o
            case Some(v) => TotalBytes(o) == |v| + TotalBytes(Without(o, k))
  {
    hide TotalBytes, DistinctKeys, Lookup, Without;
    if i :| 0 <= i < |o| && o[i].key == k {
      LookupAt(o, k, i);
      TakenOut(o, i);
    } else {
      LookupAbsent(o, k);
    }
  }

  /** Over any run from empty: distinct keys, total within the budget, and a hit answers the last accepted Put. */
  lemma {:induction false} BudgetRunLaws(ops: seq<CacheOp<Bytes>>, cap: nat, k: string)
    ensures var o := BudgetRun(ops, cap);
            && DistinctKeys(o) && TotalBytes(o) <= cap
            && (Lookup(o, k).Some? ==> Lookup(o, k) == LastPut(ops, (v: Bytes) => |v| <= cap, k))
  {
    if ops == [] {
    } else {
      BudgetRunLaws(ops[..|ops| - 1], cap, k);
      var o := BudgetRun(ops[..|ops| - 1], cap);
      match ops[|ops| - 1]
      case GetOp(j) => TouchLaws(o, j); TotalOfTouch(o, j);
      case PutOp(j, v) => BudgetPutLaws(o, cap, j, v); BudgetPutReads(o, cap, j, v, k);
      case ClearOp =>
    }
  }

  /** The same for the entry-counted cache, where every Put is accepted. */
  lemma {:induction false} CountedRunLaws<V>(ops: seq<CacheOp<V>>, cap: nat, k: string)
    requires cap >= 1
    ensures var o := CountedRun(ops, cap);
            && DistinctKeys(o) && |o| <= cap
            && (Lookup(o, k).Some? ==> Lookup(o, k) == LastPut(ops, (v: V) => true, k))
  {
    if ops == [] {
    } else {
      CountedRunLaws(ops[..|ops| - 1], cap, k);
      var o := CountedRun(ops[..|ops| - 1], cap);
      match ops[|ops| - 1]
      case GetOp(j) => TouchLaws(o, j); assert |multiset(Touch(o, j))| == |multiset(o)|;
      case PutOp(j, v) => CountedPutLaws(o, cap, j, v); CountedPutReads(o, cap, j, v, k);
      case ClearOp =>
    }
  }
}
