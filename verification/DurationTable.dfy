/** The table of accumulated durations: hash slots and value cells updated in place. */
module DurationTable {
  import opened CMachine
  import opened FunctionHash
  import opened Probing

  /** The 64-bit allocation that a slot's `value` points to. */
  class Cell {
    var word: nat

    constructor (word: nat)
      ensures this.word == word
    {
      this.word := word;
    }
  }

  /** What a first duration leaves in a cell: it is written as an int over the low half, the high half
      keeps whatever malloc returned. */
  function FirstWord(elapsed: nat, garbage: nat): nat {
    garbage * TWO_32 + elapsed % TWO_32
  }

  /** What a call adds to the table: accumulate_duration as a map update. */
  function Accumulated(words: map<CString, nat>, name: CString, elapsed: nat, garbage: nat): map<CString, nat> {
    words[name := if name in words then ToUlong(words[name] + elapsed) else FirstWord(elapsed, garbage)]
  }

  /** The loop of stat_get and of stat_set_entry, from the home slot of the key to the slot that has it
      or to a free one. */
  method Search(entries: array<Slot<Cell>>, key: CString, hash: nat) returns (index: nat, ghost d: nat)
    requires entries.Length >= 1 && TableOk(entries[..]) && hash == HashIndex(key)
    requires Stored(entries[..], key) || UsedCount(entries[..]) < entries.Length
    ensures d < entries.Length && index == Step(Home(key, entries.Length), d, entries.Length)
    ensures Passed(entries[..], key, d)
    ensures SearchedFrom(key, entries.Length, d, index)
    ensures if Stored(entries[..], key) then entries[index].Used? && entries[index].key == key
            else entries[index].Empty?
  {
    AndAtMost(hash, entries.Length - 1);
    index, d := And(hash, entries.Length - 1), 0;
    ghost var slots := entries[..];
    while entries[index].Used? && entries[index].key != key
      invariant d < entries.Length && index == Step(Home(key, entries.Length), d, entries.Length)
      invariant Passed(slots, key, d)
      decreases entries.Length - d
    {
      assert Passed(slots, key, d + 1);
      NotAllPassed(slots, key, d + 1);
      index, d := index + 1, d + 1;
      if index >= entries.Length {
        index := 0;
      }
    }
    if entries[index].Empty? {
      EmptyMeansAbsent(slots, key, d);
    }
    SearchStarts(key, entries.Length, d);
  }

  /** The contents of the slots: the cell of each name, and the slot it is in. */
  ghost predicate Indexed(slots: seq<Slot<Cell>>, cells: map<CString, Cell>, place: map<CString, nat>) {
    && cells.Keys == place.Keys
    && (forall k :: k in cells ==> place[k] < |slots| && slots[place[k]] == Used(k, cells[k]))
    && (forall i :: 0 <= i < |slots| && slots[i].Used? ==> slots[i].key in cells && place[slots[i].key] == i)
  }

  /** A slot is given to a name, its own one or a free one. */
  lemma IndexedWith(slots: seq<Slot<Cell>>, cells: map<CString, Cell>, place: map<CString, nat>,
                    i: nat, key: CString, cell: Cell)
    requires Indexed(slots, cells, place) && i < |slots|
    requires if key in cells then place[key] == i else slots[i].Empty?
    ensures Indexed(slots[i := Used(key, cell)], cells[key := cell], place[key := i])
  {
  }

  ghost predicate NoSharing(cells: map<CString, Cell>) {
    forall k, l :: k in cells && l in cells && cells[k] == cells[l] ==> k == l
  }

  lemma NoSharingWith(cells: map<CString, Cell>, name: CString, cell: Cell)
    requires NoSharing(cells) && forall k :: k in cells ==> cells[k] != cell
    ensures NoSharing(cells[name := cell])
  {
  }

  class DurationTable {
    const dic: FuncDic
    const entries: array<Slot<Cell>>
    var length: nat
    ghost var cells: map<CString, Cell>
    ghost var place: map<CString, nat>

    ghost predicate Valid()
      reads this, entries, dic, dic.slots
    {
      && entries.Length >= 1
      && dic.Valid()
      && TableOk(entries[..])
      && length == UsedCount(entries[..])
      && Indexed(entries[..], cells, place)
    }

    /** No two names share a cell. */
    ghost predicate Unshared()
      reads this
    {
      NoSharing(cells)
    }

    /** The table as a plain map from names to words. */
    ghost function Words(): map<CString, nat>
      reads this, cells.Values
    {
      WordsIn(cells)
    }

    /** The only change to `before` is a cell for a new name. */
    ghost predicate AddedCell(before: map<CString, Cell>, name: CString)
      reads this
    {
      name !in before && name in cells && cells == before[name := cells[name]]
    }

    /** stat_create */
    constructor (capacity: nat)
      requires capacity >= 1
      ensures Valid() && fresh(entries) && fresh(dic) && fresh(dic.slots)
      ensures entries.Length == capacity && length == 0 && cells == map[] && Words() == map[] && Unshared()
    {
      dic := new FuncDic();
      entries := new Slot<Cell>[capacity](_ => Empty);
      length, cells, place := 0, map[], map[];
      new;
      NoneUsed(entries[..]);
    }

    /** genHash, and the search for the key or for a free slot. */
    method Probe(key: CString) returns (index: nat, ghost d: nat)
      requires Valid() && (key in cells || length < entries.Length)
      modifies dic.slots
      ensures Valid() && entries[..] == old(entries[..]) && index < entries.Length && d < entries.Length
      ensures index == Step(Home(key, entries.Length), d, entries.Length) && Passed(entries[..], key, d)
      ensures if key in cells then index == place[key] else entries[index].Empty?
    {
      var hash := dic.GenHash(key);
      assert entries[..] == old(entries[..]);
      ghost var slots := entries[..];
      assert key in cells ==> slots[place[key]] == Used(key, cells[key]);
      index, d := Search(entries, key, hash);
    }

    /** stat_get */
    method Get(key: CString) returns (value: Cell?)
      requires Valid() && (key in cells || length < entries.Length)
      modifies dic.slots
      ensures Valid() && (value != null <==> key in cells) && (value != null ==> value == cells[key])
      ensures entries[..] == old(entries[..]) && Words() == old(Words())
    {
      var index, _ := Probe(key);
      match entries[index]
      case Used(_, cell) => value := cell;
      case Empty => value := null;
    }

    /** stat_set_entry: a stored name gets another cell, any other name a slot of its own. */
    method SetEntry(key: CString, value: Cell)
      requires Valid() && (key in cells || length < entries.Length)
      modifies this, entries, dic.slots
      ensures Valid() && cells == old(cells)[key := value]
      ensures length == old(length) + if key in old(cells) then 0 else 1
      ensures key !in old(cells) ==> entries[..] == AfterCall(old(entries[..]), key, value)
    {
      var index, d := Probe(key);
      if entries[index].Used? {
        Replace(index, key, value);
      } else {
        EndIsThere(entries[..], key, d);
        Insert(index, d, key, value);
      }
    }

    /** The key is in the slot. */
    method Replace(index: nat, key: CString, value: Cell)
      requires Valid() && key in cells && index == place[key]
      modifies `cells, entries
      ensures Valid() && cells == old(cells)[key := value]
      ensures entries[..] == old(entries[..])[index := Used(key, value)]
    {
      ghost var slots := entries[..];
      assert slots[index] == Used(key, cells[key]);
      ReplaceKeepsOk(slots, index, value);
      UseCounts(slots, index, Used(key, value));
      IndexedWith(slots, cells, place, index, key, value);
      assert place[key := index] == place;
      entries[index] := Used(key, value);
      cells := cells[key := value];
      assert entries[..] == slots[index := Used(key, value)];
    }

    /** The search for the key ended at the free slot. */
    method Insert(index: nat, ghost d: nat, key: CString, value: Cell)
      requires Valid() && key !in cells && d < entries.Length && Passed(entries[..], key, d)
      requires index == Step(Home(key, entries.Length), d, entries.Length) && entries[index].Empty?
      modifies this, entries
      ensures Valid() && cells == old(cells)[key := value] && length == old(length) + 1
      ensures entries[..] == old(entries[..])[index := Used(key, value)]
    {
      ghost var slots := entries[..];
      IndexedWith(slots, cells, place, index, key, value);
      entries[index] := Used(key, value);
      length := length + 1;
      cells, place := cells[key := value], place[key := index];
      FillKeepsOk(slots, key, value, d);
      UseCounts(slots, index, Used(key, value));
      assert entries[..] == slots[index := Used(key, value)];
    }

    /** accumulate_duration. `garbage` is what malloc left in the upper half of a new cell. */
    method Accumulate(name: CString, elapsed: nat, garbage: nat)
      requires Valid() && Unshared() && (name in cells || length < entries.Length)
      requires garbage < TWO_32
      modifies this, entries, dic.slots, cells.Values
      ensures Valid() && Unshared() && Words() == Accumulated(old(Words()), name, elapsed, garbage)
      ensures name in old(cells) ==> cells == old(cells)
      ensures name !in old(cells) ==> AddedCell(old(cells), name) && fresh(cells[name])
      ensures name in cells && entries[..] == AfterCall(old(entries[..]), name, cells[name])
    {
      var cell := Get(name);
      if cell != null {
        KnownName(this, name);
        AddTo(name, cell, elapsed, garbage);
      } else {
        AddNew(name, elapsed, garbage);
      }
    }

    /** A new cell for a new name. */
    method AddNew(name: CString, elapsed: nat, garbage: nat)
      requires Valid() && Unshared() && name !in cells && length < entries.Length
      modifies this, entries, dic.slots
      ensures Valid() && Unshared() && AddedCell(old(cells), name) && fresh(cells[name])
      ensures Words() == Accumulated(old(Words()), name, elapsed, garbage)
      ensures entries[..] == AfterCall(old(entries[..]), name, cells[name])
    {
      ghost var was := Words();
      ghost var known := cells;
      var cell := new Cell(FirstWord(elapsed, garbage));
      NoSharingWith(known, name, cell);
      SetEntry(name, cell);
      assert WordsIn(known) == was;
      WordsGrow(known, was, name, cell);
    }

    /** The addition in place, through the pointer found. */
    method AddTo(ghost name: CString, cell: Cell, elapsed: nat, ghost garbage: nat)
      requires Valid() && Unshared() && name in cells && cells[name] == cell
      modifies cell
      ensures Valid() && Words() == Accumulated(old(Words()), name, elapsed, garbage)
    {
      ghost var was := Words();
      cell.word := ToUlong(cell.word + elapsed);
      WordChanges(cells, was, name);
    }
  }

  /** A call for a name in the table changes no slot. */
  lemma KnownName(table: DurationTable, name: CString)
    requires table.Valid() && name in table.cells
    ensures table.entries[..] != [] && Stored(table.entries[..], name)
    ensures AfterCall(table.entries[..], name, table.cells[name]) == table.entries[..]
  {
    assert table.entries[..][table.place[name]] == Used(name, table.cells[name]);
    KnownChangesNothing(table.entries[..], table.place[name], table.cells[name]);
  }

  ghost function WordsIn(cells: map<CString, Cell>): map<CString, nat>
    reads cells.Values
  {
    map k | k in cells :: cells[k].word
  }

  lemma WordChanges(cells: map<CString, Cell>, was: map<CString, nat>, name: CString)
    requires name in cells && was.Keys == cells.Keys
    requires forall k :: k in cells && k != name ==> was[k] == cells[k].word
    ensures WordsIn(cells) == was[name := cells[name].word]
  {
  }

  lemma WordsGrow(known: map<CString, Cell>, was: map<CString, nat>, name: CString, cell: Cell)
    requires was == WordsIn(known)
    ensures WordsIn(known[name := cell]) == was[name := cell.word]
  {
  }
}
