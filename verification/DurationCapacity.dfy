/** How many names a duration table can take: over whole runs of calls, when every search ends. */
module DurationCapacity {
  import opened Collections
  import opened CMachine
  import opened Bits
  import opened FunctionHash
  import opened Probing
  import opened DurationRuns

  /** The search for the key ends. */
  ghost predicate Ends<V>(slots: seq<Slot<V>>, key: CString)
    requires slots != []
  {
    exists n: nat :: StopsAt(slots, key, n)
  }

  /** The slots after a call for the key: a name not stored gets `value`, where its search ends. */
  ghost function Called<V>(slots: seq<Slot<V>>, key: CString, value: V): (after: seq<Slot<V>>)
    requires slots != [] && Ends(slots, key)
    ensures |after| == |slots|
  {
    SearchEndsIff(slots, key);
    AfterCall(slots, key, value)
  }

  /** Every call of a run for these names ends; `values` are given to those not stored. */
  ghost predicate AllEnd<V>(slots: seq<Slot<V>>, names: seq<CString>, values: seq<V>)
    requires slots != [] && |values| == |names|
    decreases |names|
  {
    names == []
    || (Ends(slots, names[0]) && AllEnd(Called(slots, names[0], values[0]), names[1..], values[1..]))
  }

  /** The slots after the run. */
  ghost function SlotsAfter<V>(slots: seq<Slot<V>>, names: seq<CString>, values: seq<V>): (after: seq<Slot<V>>)
    requires slots != [] && |values| == |names| && AllEnd(slots, names, values)
    ensures |after| == |slots|
    decreases |names|
  {
    if names == [] then slots
    else SlotsAfter(Called(slots, names[0], values[0]), names[1..], values[1..])
  }

  /** A run ends with one more call if and only if it ends without and the search of that call ends. */
  lemma {:induction false} OneMoreEnds<V>(slots: seq<Slot<V>>, names: seq<CString>, values: seq<V>,
                                          key: CString, value: V)
    requires slots != [] && |values| == |names| && AllEnd(slots, names, values)
    ensures AllEnd(slots, names + [key], values + [value]) <==> Ends(SlotsAfter(slots, names, values), key)
    ensures Ends(SlotsAfter(slots, names, values), key) ==>
              SlotsAfter(slots, names + [key], values + [value])
              == Called(SlotsAfter(slots, names, values), key, value)
    decreases |names|
  {
    if names == [] {
      assert names + [key] == [key] && values + [value] == [value];
    } else {
      OneMoreEnds(Called(slots, names[0], values[0]), names[1..], values[1..], key, value);
      assert (names + [key])[1..] == names[1..] + [key];
      assert (values + [value])[1..] == values[1..] + [value];
    }
  }

  ghost function Keys<V>(slots: seq<Slot<V>>): set<CString> {
    set i | 0 <= i < |slots| && slots[i].Used? :: slots[i].key
  }

  lemma KeysCounted<V>(slots: seq<Slot<V>>)
    requires DistinctKeys(slots)
    ensures |Keys(slots)| == UsedCount(slots)
  {
    NamesComplete(slots);
    SizeOfMembers(Names(slots));
    assert Members(Names(slots)) == Keys(slots);
  }

  /** A call adds its name to the keys and keeps the table in order. */
  lemma CallAddsKey<V>(slots: seq<Slot<V>>, key: CString, value: V)
    requires slots != [] && TableOk(slots) && Ends(slots, key)
    ensures TableOk(Called(slots, key, value)) && Keys(Called(slots, key, value)) == Keys(slots) + {key}
    ensures |Called(slots, key, value)| == |slots|
  {
    SearchEndsIff(slots, key);
    var d := EndOf(slots, key, 0);
    var at := Step(Home(key, |slots|), d, |slots|);
    if slots[at].Empty? {
      FillKeepsOk(slots, key, value, d);
      FilledKeys(slots, at, key, value);
    } else {
      assert slots[at].key in Keys(slots);
    }
  }

  lemma FilledKeys<V>(slots: seq<Slot<V>>, at: nat, key: CString, value: V)
    requires at < |slots| && slots[at].Empty?
    ensures Keys(slots[at := Used(key, value)]) == Keys(slots) + {key}
  {
    var filled := slots[at := Used(key, value)];
    assert filled[at].key == key;
    forall k | k in Keys(slots) ensures k in Keys(filled) {
      var i :| 0 <= i < |slots| && slots[i].Used? && slots[i].key == k;
      assert filled[i] == slots[i];
    }
  }

  /** From any table in order, every call of a run ends if and only if its names and those stored come to
      no more than the slots, whatever the values. */
  lemma {:induction false} AllEndIff<V>(slots: seq<Slot<V>>, names: seq<CString>, values: seq<V>)
    requires slots != [] && TableOk(slots) && |values| == |names|
    ensures AllEnd(slots, names, values) <==> |Keys(slots) + Members(names)| <= |slots|
    decreases |names|
  {
    if names == [] {
      KeysCounted(slots);
      assert Keys(slots) + Members(names) == Keys(slots);
    } else {
      FirstMember(Keys(slots), names);
      if Ends(slots, names[0]) {
        CallAddsKey(slots, names[0], values[0]);
        AllEndIff(Called(slots, names[0], values[0]), names[1..], values[1..]);
      } else {
        NeverEnds(slots, names[0], Keys(slots) + Members(names));
      }
    }
  }

  /** A search that does not end is for one name too many. */
  lemma NeverEnds<V>(slots: seq<Slot<V>>, key: CString, names: set<CString>)
    requires slots != [] && DistinctKeys(slots) && !Ends(slots, key) && Keys(slots) + {key} <= names
    ensures |names| > |slots|
  {
    SearchEndsIff(slots, key);
    FullWithout(slots, key);
    SmallerIsSmaller(Keys(slots) + {key}, names);
  }

  lemma FirstMember(keys: set<CString>, names: seq<CString>)
    requires names != []
    ensures keys + Members(names) == keys + {names[0]} + Members(names[1..])
  {
    assert names == [names[0]] + names[1..];
  }

  lemma FullWithout<V>(slots: seq<Slot<V>>, key: CString)
    requires DistinctKeys(slots) && !Stored(slots, key) && UsedCount(slots) == |slots|
    ensures |Keys(slots) + {key}| == |slots| + 1
  {
    KeysCounted(slots);
    assert key !in Keys(slots);
  }

  // ---- which slot a name takes ----

  /** A new name takes the first free slot, going round from there. */
  lemma NewNameSlot<V>(slots: seq<Slot<V>>, key: CString, value: V) returns (home: nat, d: nat)
    requires slots != [] && !Stored(slots, key) && UsedCount(slots) < |slots|
    ensures forall i: nat :: Bit(home, i) == Bit(ToUlong(Polynomial(key)) % 733, i) * Bit(|slots| - 1, i)
    ensures forall k: nat :: |slots| == Pow2(k) ==> home == ToUlong(Polynomial(key)) % 733 % Pow2(k)
    ensures home < |slots| && forall e :: 0 <= e < d ==> slots[Around(home, e, |slots|)].Used?
    ensures slots[Around(home, d, |slots|)].Empty?
    ensures AfterCall(slots, key, value) == slots[Around(home, d, |slots|) := Used(key, value)]
  {
    HomeBits(key, |slots|);
    home := Home(key, |slots|);
    d := GoesRound(slots, key, value);
  }

  lemma GoesRound<V>(slots: seq<Slot<V>>, key: CString, value: V) returns (d: nat)
    requires slots != [] && !Stored(slots, key) && UsedCount(slots) < |slots|
    ensures forall e :: 0 <= e < d ==> slots[Around(Home(key, |slots|), e, |slots|)].Used?
    ensures slots[Around(Home(key, |slots|), d, |slots|)].Empty?
    ensures AfterCall(slots, key, value) == slots[Around(Home(key, |slots|), d, |slots|) := Used(key, value)]
  {
    d := EndOf(slots, key, 0);
    forall e | 0 <= e < d ensures slots[Around(Home(key, |slots|), e, |slots|)].Used? {
      StepIsMod(Home(key, |slots|), e, |slots|);
    }
    StepIsMod(Home(key, |slots|), d, |slots|);
  }

  /** The first name of a new table of 2^k slots takes the slot of its hash modulo 2^k. */
  lemma FirstNameSlot<V>(key: CString, k: nat, value: V)
    ensures var slots := NewSlots<V>(Pow2(k));
            && !Stored(slots, key) && UsedCount(slots) < |slots|
            && AfterCall(slots, key, value)
               == slots[ToUlong(Polynomial(key)) % 733 % Pow2(k) := Used(key, value)]
  {
    var slots := NewSlots<V>(Pow2(k));
    NoneUsed(slots);
    var home, d := NewNameSlot(slots, key, value);
    FirstIsHome(slots, home, d);
    StepIsMod(home, 0, |slots|);
  }

  /** Where all slots are free, a search ends at once. */
  lemma FirstIsHome<V>(slots: seq<Slot<V>>, home: nat, d: nat)
    requires slots != [] && forall i :: 0 <= i < |slots| ==> slots[i].Empty?
    requires forall e :: 0 <= e < d ==> slots[Around(home, e, |slots|)].Used?
    ensures d == 0
  {
    var first := Around(home, 0, |slots|);
  }

  /** The names of the calls of a run, in their order. */
  function NamesCalled(calls: seq<Call>): seq<CString> {
    seq(|calls|, i requires 0 <= i < |calls| => calls[i].name)
  }

  /** A new table. */
  function NewSlots<V>(capacity: nat): seq<Slot<V>> {
    seq(capacity, _ => Empty)
  }

  /** Main result on capacity: in a new table every call of a run ends if and only if the run has at most
      `capacity` distinct names. */
  lemma RunEndsIff<V>(capacity: nat, calls: seq<Call>, values: seq<V>)
    requires capacity >= 1 && |values| == |calls|
    ensures AllEnd(NewSlots<V>(capacity), NamesCalled(calls), values) <==> |NamesOf(calls)| <= capacity
  {
    AllEndIff(NewSlots<V>(capacity), NamesCalled(calls), values);
    forall n | n in NamesOf(calls) ensures n in Members(NamesCalled(calls)) {
      var i :| 0 <= i < |calls| && calls[i].name == n;
      assert NamesCalled(calls)[i] == n;
    }
    assert Keys(NewSlots<V>(capacity)) + Members(NamesCalled(calls)) == NamesOf(calls);
  }
}
