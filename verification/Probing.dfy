/** Open addressing with linear probing: where a key may be, when a search ends, and what an
    insertion keeps. A table is the sequence of its slots. */
module Probing {
  import opened CMachine
  import opened Bits
  import opened FunctionHash

  datatype Slot<V> = Empty | Used(key: CString, value: V)

  /** The slot where the search for a key starts. */
  function Home(key: CString, capacity: nat): (h: nat)
    requires capacity >= 1
    ensures h < capacity
  {
    AndAtMost(HashIndex(key), capacity - 1);
    And(HashIndex(key), capacity - 1)
  }

  /** The slot where the search for a name starts: its bits are those that the hash and the capacity less
      one have in common. With a capacity of 2^k it is the hash modulo 2^k. */
  lemma HomeBits(key: CString, capacity: nat)
    requires capacity >= 1
    ensures forall i: nat ::
              Bit(Home(key, capacity), i) == Bit(ToUlong(Polynomial(key)) % 733, i) * Bit(capacity - 1, i)
    ensures forall k: nat :: capacity == Pow2(k) ==>
              Home(key, capacity) == ToUlong(Polynomial(key)) % 733 % Pow2(k)
  {
    forall i: nat
      ensures Bit(Home(key, capacity), i) == Bit(ToUlong(Polynomial(key)) % 733, i) * Bit(capacity - 1, i)
    {
      AndBits(HashIndex(key), capacity - 1, i);
    }
    forall k: nat | capacity == Pow2(k) ensures Home(key, capacity) == ToUlong(Polynomial(key)) % 733 % Pow2(k) {
      AndMask(HashIndex(key), k);
    }
  }

  /** Slot `index` is the `d`-th from the slot whose bits are those that the hash of the key and the
      capacity less one have in common. */
  ghost predicate SearchedFrom(key: CString, capacity: nat, d: nat, index: nat)
    requires capacity >= 1
  {
    exists home: nat :: index == Around(home, d, capacity) &&
      forall i: nat :: Bit(home, i) == Bit(ToUlong(Polynomial(key)) % 733, i) * Bit(capacity - 1, i)
  }

  lemma SearchStarts(key: CString, capacity: nat, d: nat)
    requires d < capacity
    ensures SearchedFrom(key, capacity, d, Step(Home(key, capacity), d, capacity))
  {
    HomeBits(key, capacity);
    StepIsMod(Home(key, capacity), d, capacity);
  }

  /** `d` slots further, wrapping around the end. */
  function Step(h: nat, d: nat, capacity: nat): (i: nat)
    requires h < capacity && d <= capacity
    ensures i < capacity
  {
    if h + d < capacity then h + d else h + d - capacity
  }

  /** How many slots further `i` is than `h`. */
  function Dist(h: nat, i: nat, capacity: nat): (d: nat)
    requires h < capacity && i < capacity
    ensures d < capacity && Step(h, d, capacity) == i
  {
    if h <= i then i - h else i - h + capacity
  }

  ghost predicate Occupied<V>(slots: seq<Slot<V>>, h: nat, d: nat)
    requires h < |slots| && d <= |slots|
  {
    forall e :: 0 <= e < d ==> slots[Step(h, e, |slots|)].Used?
  }

  /** Every slot from a key's home up to the key is in use. */
  ghost predicate Reachable<V>(slots: seq<Slot<V>>, i: nat)
    requires i < |slots| && slots[i].Used?
  {
    var h := Home(slots[i].key, |slots|);
    Occupied(slots, h, Dist(h, i, |slots|))
  }

  ghost predicate DistinctKeys<V>(slots: seq<Slot<V>>) {
    forall i, j :: 0 <= i < j < |slots| && slots[i].Used? && slots[j].Used? ==> slots[i].key != slots[j].key
  }

  ghost predicate TableOk<V>(slots: seq<Slot<V>>) {
    && DistinctKeys(slots)
    && (forall i :: 0 <= i < |slots| && slots[i].Used? ==> Reachable(slots, i))
  }

  ghost predicate Stored<V>(slots: seq<Slot<V>>, key: CString) {
    exists i :: 0 <= i < |slots| && slots[i].Used? && slots[i].key == key
  }

  /** Number of slots in use. */
  function UsedCount<V>(slots: seq<Slot<V>>): (n: nat)
    ensures n <= |slots|
  {
    if slots == [] then 0 else UsedCount(slots[..|slots| - 1]) + (if slots[|slots| - 1].Used? then 1 else 0)
  }

  lemma {:induction false} FullIffAllUsed<V>(slots: seq<Slot<V>>)
    ensures UsedCount(slots) == |slots| <==> forall i :: 0 <= i < |slots| ==> slots[i].Used?
  {
    if slots != [] {
      var rest := slots[..|slots| - 1];
      FullIffAllUsed(rest);
      assert forall i :: 0 <= i < |rest| ==> rest[i] == slots[i];
    }
  }

  lemma {:induction false} UseCounts<V>(slots: seq<Slot<V>>, i: nat, slot: Slot<V>)
    requires i < |slots| && slot.Used?
    ensures UsedCount(slots[i := slot]) == UsedCount(slots) + (if slots[i].Used? then 0 else 1)
  {
    var n := |slots| - 1;
    if i == n {
      assert slots[i := slot][..n] == slots[..n];
    } else {
      UseCounts(slots[..n], i, slot);
      assert slots[i := slot][..n] == slots[..n][i := slot];
    }
  }

  lemma {:induction false} NoneUsed<V>(slots: seq<Slot<V>>)
    requires forall i :: 0 <= i < |slots| ==> slots[i].Empty?
    ensures UsedCount(slots) == 0
  {
    if slots != [] { NoneUsed(slots[..|slots| - 1]); }
  }

  /** The search for `key` has not ended before the `d`-th slot from its home. */
  ghost predicate Passed<V>(slots: seq<Slot<V>>, key: CString, d: nat)
    requires slots != [] && d <= |slots|
  {
    forall e :: 0 <= e < d ==>
      var slot := slots[Step(Home(key, |slots|), e, |slots|)]; slot.Used? && slot.key != key
  }

  /** A search that has been all around has seen every slot. */
  lemma AllPassed<V>(slots: seq<Slot<V>>, key: CString)
    requires slots != [] && Passed(slots, key, |slots|)
    ensures forall i :: 0 <= i < |slots| ==> slots[i].Used? && slots[i].key != key
  {
    var h := Home(key, |slots|);
    forall i | 0 <= i < |slots| ensures slots[i].Used? && slots[i].key != key {
      assert Step(h, Dist(h, i, |slots|), |slots|) == i;
    }
  }

  /** An empty slot met by the search proves the key absent. */
  lemma EmptyMeansAbsent<V>(slots: seq<Slot<V>>, key: CString, d: nat)
    requires slots != [] && TableOk(slots) && d < |slots| && Passed(slots, key, d)
    requires slots[Step(Home(key, |slots|), d, |slots|)].Empty?
    ensures !Stored(slots, key)
  {
    var h := Home(key, |slots|);
    forall i | 0 <= i < |slots| && slots[i].Used? ensures slots[i].key != key {
      assert Reachable(slots, i);
      assert Step(h, Dist(h, i, |slots|), |slots|) == i;
    }
  }

  /** Filling the empty slot where the search for a key ended keeps the table in order. */
  lemma FillKeepsOk<V>(slots: seq<Slot<V>>, key: CString, value: V, d: nat)
    requires slots != [] && TableOk(slots) && d < |slots| && Passed(slots, key, d)
    requires slots[Step(Home(key, |slots|), d, |slots|)].Empty?
    ensures TableOk(slots[Step(Home(key, |slots|), d, |slots|) := Used(key, value)])
  {
    EmptyMeansAbsent(slots, key, d);
    var h := Home(key, |slots|);
    var at := Step(h, d, |slots|);
    var filled := slots[at := Used(key, value)];
    forall i | 0 <= i < |filled| && filled[i].Used? ensures Reachable(filled, i) {
      if i == at {
        assert Dist(h, at, |slots|) == d;
      } else {
        assert Reachable(slots, i);
      }
    }
  }

  /** So does giving a stored key another value. */
  lemma ReplaceKeepsOk<V>(slots: seq<Slot<V>>, i: nat, value: V)
    requires TableOk(slots) && i < |slots| && slots[i].Used?
    ensures TableOk(slots[i := Used(slots[i].key, value)])
  {
    var replaced := slots[i := Used(slots[i].key, value)];
    forall j | 0 <= j < |replaced| && replaced[j].Used? ensures Reachable(replaced, j) {
      assert Reachable(slots, j);
    }
  }

  lemma NotAllPassed<V>(slots: seq<Slot<V>>, key: CString, d: nat)
    requires slots != [] && d <= |slots| && Passed(slots, key, d)
    requires Stored(slots, key) || UsedCount(slots) < |slots|
    ensures d < |slots|
  {
    if d == |slots| {
      AllPassed(slots, key);
      FullIffAllUsed(slots);
    }
  }

  /** The number of slots that the search for a key looks at in vain, after the first `d`. */
  function EndOf<V>(slots: seq<Slot<V>>, key: CString, d: nat): (n: nat)
    requires slots != [] && d <= |slots| && Passed(slots, key, d)
    requires Stored(slots, key) || UsedCount(slots) < |slots|
    ensures n < |slots| && Passed(slots, key, n)
    ensures var slot := slots[Step(Home(key, |slots|), n, |slots|)]; slot.Empty? || slot.key == key
    decreases |slots| - d
  {
    NotAllPassed(slots, key, d);
    var slot := slots[Step(Home(key, |slots|), d, |slots|)];
    if slot.Empty? || slot.key == key then d
    else
      assert Passed(slots, key, d + 1);
      EndOf(slots, key, d + 1)
  }

  /** The slots after a call for a key: a new one is put where its search ends. */
  function AfterCall<V>(slots: seq<Slot<V>>, key: CString, value: V): seq<Slot<V>>
    requires slots != [] && (Stored(slots, key) || UsedCount(slots) < |slots|)
  {
    var at := Step(Home(key, |slots|), EndOf(slots, key, 0), |slots|);
    if slots[at].Empty? then slots[at := Used(key, value)] else slots
  }

  /** The search has only one end. */
  lemma EndIsThere<V>(slots: seq<Slot<V>>, key: CString, d: nat)
    requires slots != [] && (Stored(slots, key) || UsedCount(slots) < |slots|)
    requires d < |slots| && Passed(slots, key, d)
    requires slots[Step(Home(key, |slots|), d, |slots|)].Empty?
    ensures EndOf(slots, key, 0) == d
  {
  }

  /** A call for a stored key changes no slot. */
  lemma KnownChangesNothing<V>(slots: seq<Slot<V>>, i: nat, value: V)
    requires slots != [] && TableOk(slots) && i < |slots| && slots[i].Used?
    ensures Stored(slots, slots[i].key) && AfterCall(slots, slots[i].key, value) == slots
  {
    var key := slots[i].key;
    var d := EndOf(slots, key, 0);
    if slots[Step(Home(key, |slots|), d, |slots|)].Empty? {
      EmptyMeansAbsent(slots, key, d);
    }
  }

  // ---- when a search ends ----

  /** The `n`-th slot from slot `h`, going round as often as it takes. */
  function Around(h: nat, n: nat, capacity: nat): (i: nat)
    requires capacity >= 1
    ensures i < capacity
  {
    (h + n) % capacity
  }

  /** The search for `key` ends at the `n`-th slot it looks at, going round as often as it takes. */
  ghost predicate StopsAt<V>(slots: seq<Slot<V>>, key: CString, n: nat)
    requires slots != []
  {
    var slot := slots[Around(Home(key, |slots|), n, |slots|)];
    slot.Empty? || slot.key == key
  }

  /** Both probing loops end if and only if the key is stored or a slot is free: so exactly
      `capacity` distinct names can be stored, and looking up one more runs for ever. */
  lemma SearchEndsIff<V>(slots: seq<Slot<V>>, key: CString)
    requires slots != []
    ensures (exists n: nat :: StopsAt(slots, key, n)) <==> Stored(slots, key) || UsedCount(slots) < |slots|
  {
    FullIffAllUsed(slots);
    if exists n: nat :: StopsAt(slots, key, n) {
      var n: nat :| StopsAt(slots, key, n);
      SlotSeen(slots, key, n);
    }
    if Stored(slots, key) || UsedCount(slots) < |slots| {
      var i: nat :| i < |slots| && (slots[i].Empty? || slots[i].key == key);
      SearchReaches(slots, key, i);
    }
  }

  lemma SlotSeen<V>(slots: seq<Slot<V>>, key: CString, n: nat)
    requires slots != [] && StopsAt(slots, key, n)
    ensures Stored(slots, key) || exists i :: 0 <= i < |slots| && slots[i].Empty?
  {
  }

  lemma SearchReaches<V>(slots: seq<Slot<V>>, key: CString, i: nat)
    requires i < |slots| && (slots[i].Empty? || slots[i].key == key)
    ensures exists n: nat :: StopsAt(slots, key, n)
  {
    var d := Dist(Home(key, |slots|), i, |slots|);
    StepIsMod(Home(key, |slots|), d, |slots|);
    assert StopsAt(slots, key, d);
  }

  lemma StepIsMod(h: nat, d: nat, capacity: nat)
    requires h < capacity && d < capacity
    ensures Around(h, d, capacity) == Step(h, d, capacity)
  {
    Quotient(h + d, capacity, if h + d < capacity then 0 else 1, Step(h, d, capacity));
  }
}
