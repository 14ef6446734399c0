/** What the duration table prints, over whole runs of accumulate_duration. */
module DurationRuns {
  import opened Collections
  import opened CMachine
  import opened Probing
  import opened DurationTable

  datatype Call = Call(name: CString, elapsed: nat, garbage: nat)

  /** The map that a run of calls leaves behind, starting from an empty table. */
  function After(calls: seq<Call>): map<CString, nat> {
    if calls == [] then map[]
    else
      var c := calls[|calls| - 1];
      Accumulated(After(calls[..|calls| - 1]), c.name, c.elapsed, c.garbage)
  }

  /** The true sum of the durations given for a name. */
  function SumFor(calls: seq<Call>, name: CString): nat {
    if calls == [] then 0
    else
      var c := calls[|calls| - 1];
      SumFor(calls[..|calls| - 1], name) + (if c.name == name then c.elapsed else 0)
  }

  function Total(calls: seq<Call>): nat {
    if calls == [] then 0 else Total(calls[..|calls| - 1]) + calls[|calls| - 1].elapsed
  }

  /** What a call writes: a first one an int over the low half of a new word, any other one the sum in
      unsigned long; the other words stay. */
  lemma CallWrites(calls: seq<Call>, c: Call)
    ensures var before, after := After(calls), After(calls + [c]);
            && after.Keys == before.Keys + {c.name}
            && (c.name in before ==> after[c.name] == (before[c.name] + c.elapsed) % TWO_64)
            && (c.name !in before ==> after[c.name] == c.garbage * TWO_32 + c.elapsed % TWO_32)
            && (forall name :: name in before && name != c.name ==> after[name] == before[name])
  {
    assert (calls + [c])[..|calls|] == calls;
  }

  /** A single call sums to its duration, for its own name, and runs one after the other add up. */
  lemma {:induction false} SumsAddUp(calls: seq<Call>, more: seq<Call>, name: CString)
    ensures SumFor(calls + more, name) == SumFor(calls, name) + SumFor(more, name)
    ensures Total(calls + more) == Total(calls) + Total(more)
  {
    if more == [] {
      assert calls + more == calls;
    } else {
      SumsAddUp(calls, more[..|more| - 1], name);
      assert (calls + more)[..|calls + more| - 1] == calls + more[..|more| - 1];
    }
  }

  lemma SumOfOne(c: Call, name: CString)
    ensures SumFor([c], name) == (if c.name == name then c.elapsed else 0) && Total([c]) == c.elapsed
  {
    assert [c][..0] == [];
  }

  ghost function NamesOf(calls: seq<Call>): set<CString> {
    set i | 0 <= i < |calls| :: calls[i].name
  }

  /** The words are the sums modulo 2^32 of the names they are stored for. */
  ghost predicate HoldsSums(words: map<CString, nat>, calls: seq<Call>) {
    && words.Keys == NamesOf(calls)
    && (forall name :: name in words ==> words[name] % TWO_32 == SumFor(calls, name) % TWO_32)
    && (forall name :: name !in words ==> SumFor(calls, name) == 0)
  }

  /** Main result on accumulation: a name is in the table exactly when it was accumulated, and its
      word is the true sum modulo 2^32 in its low half, whatever malloc left in the high half. */
  lemma {:induction false} WordIsSum(calls: seq<Call>)
    ensures HoldsSums(After(calls), calls)
  {
    if calls != [] {
      var before, c := calls[..|calls| - 1], calls[|calls| - 1];
      WordIsSum(before);
      assert calls == before + [c];
      OneMoreWord(After(before), before, c);
    }
  }

  lemma OneMoreWord(words: map<CString, nat>, before: seq<Call>, c: Call)
    requires HoldsSums(words, before)
    ensures HoldsSums(Accumulated(words, c.name, c.elapsed, c.garbage), before + [c])
  {
    NamesGrow(before, c);
    assert (before + [c])[..|before|] == before;
    if c.name in words {
      LowHalfAdds(words[c.name], SumFor(before, c.name), c.elapsed);
    } else {
      LowHalfStarts(c.elapsed, c.garbage);
    }
  }

  lemma NamesGrow(before: seq<Call>, c: Call)
    ensures NamesOf(before + [c]) == NamesOf(before) + {c.name}
  {
    var calls := before + [c];
    assert calls[|before|] == c;
    forall i | 0 <= i < |before| ensures before[i].name in NamesOf(calls) {
      assert calls[i] == before[i];
    }
  }

  lemma LowHalfAdds(word: nat, sum: nat, elapsed: nat)
    requires word % TWO_32 == sum % TWO_32
    ensures ToUlong(word + elapsed) % TWO_32 == (sum + elapsed) % TWO_32
  {
    var w := word + elapsed;
    assert w % TWO_64 == w - (w / TWO_64) * TWO_64;
    assert (w / TWO_64) * TWO_64 == ((w / TWO_64) * TWO_32) * TWO_32;
    HalfWords(w, -(w / TWO_64) * TWO_32);
    assert word - sum == (word / TWO_32 - sum / TWO_32) * TWO_32;
    HalfWords(sum + elapsed, word / TWO_32 - sum / TWO_32);
  }

  lemma LowHalfStarts(elapsed: nat, garbage: nat)
    ensures FirstWord(elapsed, garbage) % TWO_32 == elapsed % TWO_32
  {
    HalfWords(elapsed % TWO_32, garbage);
  }

  lemma HalfWords(x: int, k: int)
    ensures (x + k * TWO_32) % TWO_32 == x % TWO_32
  {
  }

  /** The number printed for a name is its sum modulo 2^32, and the sum itself below 2^31. */
  lemma PrintedIsSum(calls: seq<Call>, name: CString)
    requires name in After(calls)
    ensures LowInt(After(calls)[name]) % TWO_32 == SumFor(calls, name) % TWO_32
    ensures LowInt(After(calls)[name]) == SumFor(calls, name) <==> SumFor(calls, name) < TWO_31
  {
    WordIsSum(calls);
    LowHalfPrinted(After(calls)[name], SumFor(calls, name));
  }

  lemma LowHalfPrinted(word: nat, sum: nat)
    requires word % TWO_32 == sum % TWO_32
    ensures LowInt(word) % TWO_32 == sum % TWO_32
    ensures LowInt(word) == sum <==> sum < TWO_31
  {
  }

  // ---- iteration ----

  /** The names in the slots, in the order of the slots. */
  function Names<V>(slots: seq<Slot<V>>): seq<CString> {
    if slots == [] then []
    else
      var last := slots[|slots| - 1];
      Names(slots[..|slots| - 1]) + (if last.Used? then [last.key] else [])
  }

  /** Going over the slots meets each stored name once. */
  lemma {:induction false} NamesComplete<V>(slots: seq<Slot<V>>)
    requires DistinctKeys(slots)
    ensures |Names(slots)| == UsedCount(slots) && Distinct(Names(slots))
    ensures forall name :: name in Names(slots) <==> Stored(slots, name)
  {
    if slots != [] {
      var n := |slots| - 1;
      var before := slots[..n];
      NamesComplete(before);
      forall name ensures Stored(slots, name) <==> Stored(before, name) || (slots[n].Used? && slots[n].key == name) {
        if Stored(before, name) {
          var i :| 0 <= i < |before| && before[i].Used? && before[i].key == name;
          assert slots[i] == before[i];
        }
        if Stored(slots, name) {
          var i :| 0 <= i < |slots| && slots[i].Used? && slots[i].key == name;
          if i < n { assert before[i] == slots[i]; }
        }
      }
      if slots[n].Used? {
        assert !Stored(before, slots[n].key);
      }
    }
  }

  /** The names come in the order of their slots. */
  lemma {:induction false} NamesInOrder<V>(slots: seq<Slot<V>>, p: nat, q: nat) returns (i: nat, j: nat)
    requires p < q < |slots| && slots[p].Used? && slots[q].Used?
    ensures i < j < |Names(slots)| && Names(slots)[i] == slots[p].key && Names(slots)[j] == slots[q].key
  {
    var n := |slots| - 1;
    if q < n {
      i, j := NamesInOrder(slots[..n], p, q);
    } else {
      i := NameOf(slots[..n], p);
      j := |Names(slots)| - 1;
    }
  }

  lemma {:induction false} NameOf<V>(slots: seq<Slot<V>>, p: nat) returns (i: nat)
    requires p < |slots| && slots[p].Used?
    ensures i < |Names(slots)| && Names(slots)[i] == slots[p].key
  {
    var n := |slots| - 1;
    if p < n {
      i := NameOf(slots[..n], p);
    } else {
      i := |Names(slots)| - 1;
    }
  }

  /** One line of the statistics file. */
  datatype Row = Row(name: CString, microseconds: int)

  function RowsFor(names: seq<CString>, words: map<CString, nat>): (rows: seq<Row>)
    requires forall n :: n in names ==> n in words
  {
    seq(|names|, i requires 0 <= i < |names| => Row(names[i], LowInt(words[names[i]])))
  }

  /** hti: `index` is the next slot to look at. */
  class Iterator {
    const table: DurationTable
    var index: nat
    var key: CString
    var value: Cell?

    constructor (table: DurationTable)
      ensures this.table == table && index == 0
    {
      this.table, index, key, value := table, 0, [], null;
    }

    /** The iterator's key and value are those of the slot. */
    ghost predicate Shows(slot: Slot<Cell>)
      reads this
    {
      value != null && slot.Used? && slot.key == key && slot.value == value
    }

    /** stat_next */
    method Next() returns (more: bool)
      requires index <= table.entries.Length
      modifies this
      ensures old(index) <= index <= table.entries.Length
      ensures more ==> old(index) < index && Shows(table.entries[index - 1])
      ensures forall i :: old(index) <= i < (if more then index - 1 else index) ==> table.entries[i].Empty?
      ensures !more ==> index == table.entries.Length
    {
      while index < table.entries.Length
        invariant old(index) <= index <= table.entries.Length
        invariant forall i :: old(index) <= i < index ==> table.entries[i].Empty?
      {
        var i := index;
        index := index + 1;
        if table.entries[i].Used? {
          key, value := table.entries[i].key, table.entries[i].value;
          return true;
        }
      }
      return false;
    }
  }

  lemma {:induction false} SkipEmpty<V>(slots: seq<Slot<V>>, from: nat, to: nat)
    requires from <= to <= |slots|
    requires forall i :: from <= i < to ==> slots[i].Empty?
    ensures Names(slots[..to]) == Names(slots[..from])
  {
    if from < to {
      SkipEmpty(slots, from, to - 1);
      assert slots[..to][..to - 1] == slots[..to - 1];
    }
  }

  /** The statistics file as stat_print_ writes it: `length` rows, one for each name, with the low
      half of its word. */
  method PrintRows(table: DurationTable) returns (rows: seq<Row>)
    requires table.Valid()
    ensures |rows| == table.length && Distinct(Names(table.entries[..]))
    ensures forall name :: name in Names(table.entries[..]) <==> name in table.cells
    ensures rows == RowsFor(Names(table.entries[..]), table.Words())
  {
    NamesComplete(table.entries[..]);
    StoredIsCell(table);
    ghost var slots := table.entries[..];
    rows := CollectRows(table, table.Words());
    assert slots[..|slots|] == slots;
  }

  /** The rows of the first `done` slots. */
  ghost predicate Collected(rows: seq<Row>, slots: seq<Slot<Cell>>, done: nat, words: map<CString, nat>)
    requires done <= |slots|
  {
    (forall n :: n in Names(slots[..done]) ==> n in words) && rows == RowsFor(Names(slots[..done]), words)
  }

  /** One more row, and the empty slots behind it. */
  lemma RowAdded(rows: seq<Row>, slots: seq<Slot<Cell>>, done: nat, to: nat, words: map<CString, nat>)
    requires done < to <= |slots| && Collected(rows, slots, done, words) && slots[done].Used?
    requires slots[done].key in words && forall i :: done < i < to ==> slots[i].Empty?
    ensures Collected(rows + [Row(slots[done].key, LowInt(words[slots[done].key]))], slots, to, words)
  {
    NamesAppend(slots, done + 1);
    SkipEmpty(slots, done + 1, to);
  }

  /** The row loop. */
  method CollectRows(table: DurationTable, ghost words: map<CString, nat>) returns (rows: seq<Row>)
    requires forall i :: 0 <= i < table.entries.Length && table.entries[i].Used? ==>
               table.entries[i].key in words && words[table.entries[i].key] == table.entries[i].value.word
    ensures Collected(rows, table.entries[..], table.entries.Length, words)
  {
    ghost var slots := table.entries[..];
    var it := new Iterator(table);
    var more := it.Next();
    rows := [];
    ghost var done := if more then it.index - 1 else it.index;
    SkipEmpty(slots, 0, done);
    while more
      invariant it.table == table && fresh(it) && it.index <= table.entries.Length
      invariant more ==> it.index >= 1 && it.Shows(slots[it.index - 1])
      invariant done == if more then it.index - 1 else table.entries.Length
      invariant Collected(rows, slots, done, words)
      decreases table.entries.Length - done
    {
      ghost var was, from := rows, done;
      rows := rows + [Row(it.key, LowInt(it.value.word))];
      more := it.Next();
      done := if more then it.index - 1 else it.index;
      RowAdded(was, slots, from, done, words);
    }
  }

  lemma NamesAppend<V>(slots: seq<Slot<V>>, n: nat)
    requires 1 <= n <= |slots| && slots[n - 1].Used?
    ensures Names(slots[..n]) == Names(slots[..n - 1]) + [slots[n - 1].key]
  {
    assert slots[..n][..n - 1] == slots[..n - 1];
  }

  lemma StoredIsCell(table: DurationTable)
    requires table.Valid()
    ensures forall name :: Stored(table.entries[..], name) <==> name in table.cells
  {
  }

  // ---- conservation ----

  function RowTotal(rows: seq<Row>): int {
    if rows == [] then 0 else RowTotal(rows[..|rows| - 1]) + rows[|rows| - 1].microseconds
  }

  /** The sums of the names in a list. */
  function SumOver(names: seq<CString>, calls: seq<Call>): nat {
    if names == [] then 0
    else SumOver(names[..|names| - 1], calls) + SumFor(calls, names[|names| - 1])
  }

  lemma {:induction false} OneMoreCall(names: seq<CString>, calls: seq<Call>)
    requires Distinct(names) && calls != []
    ensures var c := calls[|calls| - 1];
            SumOver(names, calls) == SumOver(names, calls[..|calls| - 1]) + (if c.name in names then c.elapsed else 0)
  {
    if names != [] {
      var n := |names| - 1;
      OneMoreCall(names[..n], calls);
      assert names == names[..n] + [names[n]];
    }
  }

  lemma {:induction false} SumOverIsTotal(names: seq<CString>, calls: seq<Call>)
    requires Distinct(names) && forall i :: 0 <= i < |calls| ==> calls[i].name in names
    ensures SumOver(names, calls) == Total(calls)
  {
    if calls == [] {
      NoSums(names);
    } else {
      OneMoreCall(names, calls);
      SumOverIsTotal(names, calls[..|calls| - 1]);
    }
  }

  lemma {:induction false} NoSums(names: seq<CString>)
    ensures SumOver(names, []) == 0
  {
    if names != [] { NoSums(names[..|names| - 1]); }
  }

  lemma {:induction false} RowsSumUp(names: seq<CString>, calls: seq<Call>)
    requires forall n :: n in names ==> n in After(calls)
    ensures RowTotal(RowsFor(names, After(calls))) % TWO_32 == SumOver(names, calls) % TWO_32
  {
    if names != [] {
      var n := |names| - 1;
      var rows := RowsFor(names, After(calls));
      RowsSumUp(names[..n], calls);
      assert rows[..n] == RowsFor(names[..n], After(calls));
      PrintedIsSum(calls, names[n]);
      AddCongruent(RowTotal(rows[..n]), SumOver(names[..n], calls), rows[n].microseconds, SumFor(calls, names[n]));
    }
  }

  lemma AddCongruent(a: int, b: int, c: int, d: int)
    requires a % TWO_32 == b % TWO_32 && c % TWO_32 == d % TWO_32
    ensures (a + c) % TWO_32 == (b + d) % TWO_32
  {
    assert a - b == (a / TWO_32 - b / TWO_32) * TWO_32;
    assert c - d == (c / TWO_32 - d / TWO_32) * TWO_32;
    HalfWords(b + d, (a / TWO_32 - b / TWO_32) + (c / TWO_32 - d / TWO_32));
  }

  /** Main result on printing: the printed rows sum to all the time ever accumulated, modulo 2^32. */
  lemma PrintingConserves(names: seq<CString>, calls: seq<Call>)
    requires Distinct(names) && forall n :: n in names <==> n in After(calls)
    ensures RowTotal(RowsFor(names, After(calls))) % TWO_32 == Total(calls) % TWO_32
  {
    WordIsSum(calls);
    forall i | 0 <= i < |calls| ensures calls[i].name in names { assert calls[i].name in NamesOf(calls); }
    RowsSumUp(names, calls);
    SumOverIsTotal(names, calls);
  }

  // ---- what a whole session prints ----

  /** The rows name every name accumulated, once. */
  ghost predicate OneRowEach(rows: seq<Row>, calls: seq<Call>) {
    && |rows| == |NamesOf(calls)|
    && (forall i, j :: 0 <= i < j < |rows| ==> rows[i].name != rows[j].name)
    && (forall i :: 0 <= i < |rows| ==> rows[i].name in NamesOf(calls))
  }

  lemma RowsAreSums(names: seq<CString>, calls: seq<Call>)
    requires Distinct(names) && forall n :: n in names <==> n in After(calls)
    ensures var rows := RowsFor(names, After(calls));
            && OneRowEach(rows, calls)
            && (forall i :: 0 <= i < |rows| ==> rows[i].microseconds % TWO_32 == SumFor(calls, rows[i].name) % TWO_32)
            && RowTotal(rows) % TWO_32 == Total(calls) % TWO_32
  {
    WordIsSum(calls);
    PrintingConserves(names, calls);
    SizeOfMembers(names);
    assert Members(names) == NamesOf(calls);
    forall i | 0 <= i < |names|
      ensures names[i] in NamesOf(calls) && LowInt(After(calls)[names[i]]) % TWO_32 == SumFor(calls, names[i]) % TWO_32
    {
      assert names[i] in names;
      PrintedIsSum(calls, names[i]);
    }
  }

  lemma LengthIsSize(table: DurationTable)
    requires table.Valid()
    ensures table.length == |table.cells.Keys|
  {
    var names := Names(table.entries[..]);
    NamesComplete(table.entries[..]);
    StoredIsCell(table);
    SizeOfMembers(names);
    assert Members(names) == table.cells.Keys;
  }
}
