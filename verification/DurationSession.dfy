/** Whole sessions of the duration table: it is created, durations are accumulated, and it is printed. */
module DurationSession {
  import opened Collections
  import opened CMachine
  import opened Probing
  import opened DurationTable
  import opened DurationRuns
  import opened DurationCapacity

  /** In a new table every call of the run ends, and with these cells for the calls it leaves the slots. */
  ghost predicate RunGives(slots: seq<Slot<Cell>>, calls: seq<Call>, cells: seq<Cell>) {
    && slots != [] && |cells| == |calls|
    && AllEnd(NewSlots<Cell>(|slots|), NamesCalled(calls), cells)
    && slots == SlotsAfter(NewSlots<Cell>(|slots|), NamesCalled(calls), cells)
  }

  lemma RunGoesOn(slots: seq<Slot<Cell>>, calls: seq<Call>, cells: seq<Cell>, c: Call, cell: Cell)
    requires RunGives(slots, calls, cells) && Ends(slots, c.name)
    ensures RunGives(Called(slots, c.name, cell), calls + [c], cells + [cell])
  {
    OneMoreEnds(NewSlots<Cell>(|slots|), NamesCalled(calls), cells, c.name, cell);
    assert NamesCalled(calls + [c]) == NamesCalled(calls) + [c.name];
  }

  /** The table after the calls of a run, with these cells for them. */
  ghost predicate Filled(table: DurationTable, calls: seq<Call>, cells: seq<Cell>)
    reads table, table.entries, table.dic, table.dic.slots, table.cells.Values
  {
    && table.Valid() && table.Unshared() && table.Words() == After(calls)
    && RunGives(table.entries[..], calls, cells)
  }

  /** A table is created and durations are accumulated. With no more distinct names than slots every
      search ends, whatever the capacity; then the slots are those of the run with the cells allocated in
      it, and the table is the map of the run. */
  method Fill(capacity: nat, calls: seq<Call>) returns (table: DurationTable, ghost cells: seq<Cell>)
    requires capacity >= 1 && |NamesOf(calls)| <= capacity
    requires forall i :: 0 <= i < |calls| ==> calls[i].garbage < TWO_32
    ensures fresh(table) && table.entries.Length == capacity && Filled(table, calls, cells)
  {
    table := new DurationTable(capacity);
    cells := [];
    for i := 0 to |calls|
      invariant fresh(table) && fresh(table.entries) && fresh(table.dic) && fresh(table.dic.slots)
      invariant forall k :: k in table.cells ==> fresh(table.cells[k])
      invariant table.entries.Length == capacity && Filled(table, calls[..i], cells)
    {
      cells := MakeCall(table, calls, i, cells);
    }
    assert calls[..|calls|] == calls;
  }

  /** One call of the run. */
  method MakeCall(table: DurationTable, calls: seq<Call>, i: nat, ghost cells: seq<Cell>)
    returns (ghost cells': seq<Cell>)
    requires i < |calls| && Filled(table, calls[..i], cells)
    requires |NamesOf(calls)| <= table.entries.Length && calls[i].garbage < TWO_32
    modifies table, table.entries, table.dic.slots, table.cells.Values
    ensures Filled(table, calls[..i + 1], cells')
    ensures forall k :: k in table.cells && k !in old(table.cells) ==> fresh(table.cells[k])
    ensures forall k :: k in table.cells && k in old(table.cells) ==> table.cells[k] == old(table.cells[k])
  {
    ghost var slots := table.entries[..];
    RoomForOneMore(table, calls, i);
    CallTable(table, calls[i]);
    RunGoesOn(slots, calls[..i], cells, calls[i], table.cells[calls[i].name]);
    AfterOneMore(calls[..i], calls[i]);
    FrontGrows(calls, i);
    cells' := cells + [table.cells[calls[i].name]];
  }

  /** A call whose search ends. */
  method CallTable(table: DurationTable, c: Call)
    requires table.Valid() && table.Unshared() && c.garbage < TWO_32
    requires c.name in table.cells || table.length < table.entries.Length
    modifies table, table.entries, table.dic.slots, table.cells.Values
    ensures table.Valid() && table.Unshared()
    ensures table.Words() == Accumulated(old(table.Words()), c.name, c.elapsed, c.garbage)
    ensures c.name in table.cells && Ends(old(table.entries[..]), c.name)
    ensures table.entries[..] == Called(old(table.entries[..]), c.name, table.cells[c.name])
    ensures forall k :: k in table.cells && k !in old(table.cells) ==> fresh(table.cells[k])
    ensures forall k :: k in table.cells && k in old(table.cells) ==> table.cells[k] == old(table.cells[k])
  {
    EndsOnTable(table, c.name);
    table.Accumulate(c.name, c.elapsed, c.garbage);
  }

  lemma FrontGrows<T>(s: seq<T>, i: nat)
    requires i < |s|
    ensures s[..i + 1] == s[..i] + [s[i]]
  {
  }

  lemma AfterOneMore(calls: seq<Call>, c: Call)
    ensures After(calls + [c]) == Accumulated(After(calls), c.name, c.elapsed, c.garbage)
  {
    assert (calls + [c])[..|calls|] == calls;
  }

  /** What accumulate_duration asks for is exactly that its search ends. */
  lemma EndsOnTable(table: DurationTable, name: CString)
    requires table.Valid()
    ensures Ends(table.entries[..], name) <==> name in table.cells || table.length < table.entries.Length
  {
    SearchEndsIff(table.entries[..], name);
    StoredIsCell(table);
  }

  /** A whole session: durations are accumulated in any order, and the table is printed. Each name gets
      one row with its sum modulo 2^32, and the rows add up to everything accumulated. */
  method Session(capacity: nat, calls: seq<Call>) returns (rows: seq<Row>)
    requires capacity >= 1 && |NamesOf(calls)| <= capacity
    requires forall i :: 0 <= i < |calls| ==> calls[i].garbage < TWO_32
    ensures OneRowEach(rows, calls)
    ensures forall i :: 0 <= i < |rows| ==> rows[i].microseconds % TWO_32 == SumFor(calls, rows[i].name) % TWO_32
    ensures RowTotal(rows) % TWO_32 == Total(calls) % TWO_32
  {
    var table, _ := Fill(capacity, calls);
    rows := PrintRows(table);
    ghost var names := Names(table.entries[..]);
    assert table.cells.Keys == table.Words().Keys;
    RowsAreSums(names, calls);
  }

  lemma PrefixNames(calls: seq<Call>, i: nat)
    requires i < |calls|
    ensures NamesOf(calls[..i]) + {calls[i].name} <= NamesOf(calls)
  {
  }

  lemma RoomForOneMore(table: DurationTable, calls: seq<Call>, i: nat)
    requires table.Valid() && i < |calls| && table.Words() == After(calls[..i])
    requires |NamesOf(calls)| <= table.entries.Length
    ensures calls[i].name in table.cells || table.length < table.entries.Length
  {
    LengthIsSize(table);
    WordIsSum(calls[..i]);
    PrefixNames(calls, i);
    assert table.cells.Keys == table.Words().Keys == NamesOf(calls[..i]);
    SmallerIsSmaller(NamesOf(calls[..i]) + {calls[i].name}, NamesOf(calls));
  }
}
