/** Per-dataset statistics kept while a dataset is open, in C's 64-bit `hsize_t` arithmetic. */
module DatasetStats {
  import opened CMachine

  /** Counters for one direction of transfer. */
  datatype Tally = Tally(bytes: nat, cnt: int, independent: int, collective: int, broken: int)

  /** The class of a dataspace: H5S_SIMPLE, H5S_SCALAR or H5S_NULL. */
  datatype Space = Simple | Scalar | Null

  /** `dims` holds the `dimension_cnt` sizes; `spaceSize` is the element count the code works with. */
  datatype Stats = Stats(space: Space, dims: seq<nat>, typeSize: nat, spaceSize: nat,
                         read: Tally, written: Tally)
  {
    function Tallied(reading: bool): Tally {
      if reading then read else written
    }
  }

  const NO_TRANSFERS := Tally(0, 0, 0, 0, 0)

  /** A zeroed record. */
  const NO_STATS := Stats(Null, [], 0, 0, NO_TRANSFERS, NO_TRANSFERS)

  /** How MPI-IO moved the data; `actual` is false when a collective transfer was broken up. */
  datatype Mode = Independent | Collective(actual: bool)

  /** What a transfer moves: with H5S_ALL for the memory dataspace, all of the dataset or a selection of
      `n` of its points; otherwise a selection of `n` points in memory. */
  datatype Selection = Whole | InFile(n: nat) | InMemory(n: nat)

  datatype StatOp =
    | Read(mode: Mode, sel: Selection)
    | Write(mode: Mode, sel: Selection)
    | SetExtent(size: seq<nat>)
    | Remeasure(dims: seq<nat>, points: nat)

  /** Number of elements of an array with these dimensions. */
  function Product(dims: seq<nat>): nat {
    if dims == [] then 1 else Product(dims[..|dims| - 1]) * dims[|dims| - 1]
  }

  /** The number of elements of a dataspace. */
  function Count(space: Space, dims: seq<nat>): nat {
    match space
    case Simple => Product(dims)
    case Scalar => 1
    case Null => 0
  }

  /** H5Sget_simple_extent_npoints, in 64 bits. */
  function Npoints(space: Space, dims: seq<nat>): nat {
    match space
    case Simple => Product(dims) % TWO_64
    case Scalar => 1
    case Null => 0
  }

  /** What HDF5 says of a dataset: its dataspace, the size of an element, and the number of elements. */
  datatype Extent = Extent(space: Space, dims: seq<nat>, typeSize: nat, points: nat) {
    predicate Reported() {
      points == Npoints(space, dims) && (space != Simple ==> dims == [])
    }
  }

  /** new_ds_prov_info: the record of a dataset that is not registered yet. Its element count stays
      zero unless its dataspace is simple. */
  function NewStats(e: Extent): Stats {
    if e.space == Simple then Stats(Simple, e.dims, e.typeSize, e.points, NO_TRANSFERS, NO_TRANSFERS)
    else Stats(e.space, [], e.typeSize, 0, NO_TRANSFERS, NO_TRANSFERS)
  }

  /** The transfer size, as the code computes it. */
  function TransferSize(s: Stats, sel: Selection): nat {
    (s.typeSize * (match sel case InMemory(n) => n case _ => s.spaceSize)) % TWO_64
  }

  function Counted(t: Tally, mode: Mode, size: nat): Tally {
    Tally((t.bytes + size) % TWO_64,
          t.cnt + 1,
          t.independent + (if mode.Independent? then 1 else 0),
          t.collective + (if mode.Collective? then 1 else 0),
          t.broken + (if mode == Collective(false) then 1 else 0))
  }

  /** One successful dataset operation. */
  function Apply(s: Stats, op: StatOp): Stats {
    match op
    case Read(mode, sel) => s.(read := Counted(s.read, mode, TransferSize(s, sel)))
    case Write(mode, sel) => s.(written := Counted(s.written, mode, TransferSize(s, sel)))
    case SetExtent(size) =>
      if s.space == Simple && |s.dims| <= |size| then
        s.(dims := size[..|s.dims|], spaceSize := Product(size[..|s.dims|]) % TWO_64)
      else s
    case Remeasure(dims, points) => s.(dims := dims, spaceSize := points)
  }

  /** What HDF5 guarantees: the class and the rank never change, a new extent has one size per
      dimension, and the number of points is that of the dataspace. */
  ghost predicate OpAllowed(s: Stats, op: StatOp) {
    match op
    case SetExtent(size) => |size| == |s.dims|
    case Remeasure(dims, points) => |dims| == |s.dims| && points == Npoints(s.space, dims)
    case _ => true
  }

  ghost predicate TallyOk(t: Tally) {
    && t.cnt == t.independent + t.collective
    && 0 <= t.broken <= t.collective && 0 <= t.independent && t.bytes < TWO_64
  }

  ghost predicate StatsOk(s: Stats) {
    && TallyOk(s.read) && TallyOk(s.written)
    && SpaceOk(s.space, s.dims, s.spaceSize)
  }

  /** The element count is that of the dataspace, or still zero in the record of a scalar dataset. */
  ghost predicate SpaceOk(space: Space, dims: seq<nat>, spaceSize: nat) {
    && (space != Simple ==> dims == [])
    && (spaceSize == Npoints(space, dims) || (space == Scalar && spaceSize == 0))
  }

  // ---- whole runs, measured against unbounded arithmetic ----

  function After(s: Stats, ops: seq<StatOp>): Stats
    decreases |ops|
  {
    if ops == [] then s else After(Apply(s, ops[0]), ops[1..])
  }

  ghost predicate Allowed(s: Stats, ops: seq<StatOp>)
    decreases |ops|
  {
    ops == [] || (OpAllowed(s, ops[0]) && Allowed(Apply(s, ops[0]), ops[1..]))
  }

  /** What can be known of a dataset from outside: its dataspace, the size of an element, and whether it
      needs no refresh for its elements to be counted. */
  datatype Known = Known(space: Space, dims: seq<nat>, typeSize: nat, measured: bool) {
    function Next(op: StatOp): Known {
      match op
      case SetExtent(size) => this.(dims := size)
      case Remeasure(dims', _) => this.(dims := dims', measured := true)
      case _ => this
    }

    /** The number of elements that a transfer moves. */
    function Moved(sel: Selection): nat {
      match sel
      case Whole => Count(space, dims)
      case InFile(n) => n
      case InMemory(n) => n
    }

    /** The number of elements that the code takes a transfer to move. */
    function Believed(sel: Selection): nat {
      match sel
      case InMemory(n) => n
      case _ => if measured then Count(space, dims) else 0
    }
  }

  function KnownOf(s: Stats): Known {
    Known(s.space, s.dims, s.typeSize, s.space == Scalar ==> s.spaceSize != 0)
  }

  /** The operation transfers in the direction asked for. */
  predicate Transfers(op: StatOp, reading: bool) {
    if reading then op.Read? else op.Write?
  }

  /** The bytes that a run moves in one direction. */
  function TrueBytes(k: Known, ops: seq<StatOp>, reading: bool): nat
    decreases |ops|
  {
    if ops == [] then 0
    else (if Transfers(ops[0], reading) then k.typeSize * k.Moved(ops[0].sel) else 0)
         + TrueBytes(k.Next(ops[0]), ops[1..], reading)
  }

  /** The bytes that a run moves in one direction beyond those counted. */
  function MissedBytes(k: Known, ops: seq<StatOp>, reading: bool): int
    decreases |ops|
  {
    if ops == [] then 0
    else (if Transfers(ops[0], reading) then k.typeSize * (k.Moved(ops[0].sel) - k.Believed(ops[0].sel)) else 0)
         + MissedBytes(k.Next(ops[0]), ops[1..], reading)
  }

  lemma ModAdd(a: int, b: int)
    ensures (a % TWO_64 + b) % TWO_64 == (a + b) % TWO_64
    ensures (a + b % TWO_64) % TWO_64 == (a + b) % TWO_64
  {
    assert a % TWO_64 == a - (a / TWO_64) * TWO_64 && b % TWO_64 == b - (b / TWO_64) * TWO_64;
    WholeWords(a + b, -(a / TWO_64));
    WholeWords(a + b, -(b / TWO_64));
  }

  lemma ModMul(a: nat, b: nat)
    ensures (a * (b % TWO_64)) % TWO_64 == (a * b) % TWO_64
  {
    var q, m := b / TWO_64, b % TWO_64;
    assert a * b == a * (q * TWO_64 + m) == (a * q) * TWO_64 + a * m;
    WholeWords(a * m, a * q);
  }

  /** The product of two runs of sizes is that of their products, and of one size that size. */
  lemma {:induction false} ProductOfParts(a: seq<nat>, b: seq<nat>)
    ensures Product(a + b) == Product(a) * Product(b)
    ensures |a| == 1 ==> Product(a) == a[0]
  {
    if |a| == 1 { assert a[..0] == []; }
    if b == [] {
      assert a + b == a;
    } else {
      var n := |b| - 1;
      ProductOfParts(a, b[..n]);
      assert (a + b)[..|a + b| - 1] == a + b[..n];
      Associates(Product(a), Product(b[..n]), b[n]);
    }
  }

  lemma Associates(a: nat, b: nat, c: nat)
    ensures (a * b) * c == a * (b * c)
  {
  }

  /** One round of the loop that multiplies up the sizes. */
  lemma ProductGrows(size: seq<nat>, u: nat)
    requires u < |size|
    ensures (Product(size[..u]) % TWO_64 * size[u]) % TWO_64 == Product(size[..u + 1]) % TWO_64
  {
    assert size[..u + 1][..u] == size[..u];
    ModMul(size[u], Product(size[..u]));
    var p := Product(size[..u]) % TWO_64;
    assert p * size[u] == size[u] * p;
    assert Product(size[..u]) * size[u] == size[u] * Product(size[..u]);
  }

  /** A new record is in order. */
  lemma NewStatsOk(e: Extent)
    requires e.Reported()
    ensures StatsOk(NewStats(e))
  {
  }

  /** Only that of a scalar dataset is not measured. */
  lemma NewStatsKnown(e: Extent)
    requires e.Reported()
    ensures KnownOf(NewStats(e)) == Known(e.space, e.dims, e.typeSize, e.space != Scalar)
  {
  }

  lemma ApplyKeepsOk(s: Stats, op: StatOp)
    requires StatsOk(s) && OpAllowed(s, op)
    ensures StatsOk(Apply(s, op)) && KnownOf(Apply(s, op)) == KnownOf(s).Next(op)
  {
    if op.SetExtent? { assert op.size[..|s.dims|] == op.size; }
  }

  /** What one operation does to a record: a transfer adds the size of an element times the number of points
      selected in memory, or else of the element count, to one direction; a new extent and a measurement
      change the dimensions and the element count. */
  lemma OperationEffects(s: Stats, op: StatOp)
    requires OpAllowed(s, op)
    ensures var t := Apply(s, op);
            && t.space == s.space && t.typeSize == s.typeSize
            && (op.Read? ==> t == s.(read := t.read))
            && (op.Write? ==> t == s.(written := t.written))
            && (op.Read? && op.sel.InMemory? ==> t.read.bytes == (s.read.bytes + s.typeSize * op.sel.n) % TWO_64)
            && (op.Read? && !op.sel.InMemory? ==> t.read.bytes == (s.read.bytes + s.typeSize * s.spaceSize) % TWO_64)
            && (op.Write? && op.sel.InMemory? ==>
                  t.written.bytes == (s.written.bytes + s.typeSize * op.sel.n) % TWO_64)
            && (op.Write? && !op.sel.InMemory? ==>
                  t.written.bytes == (s.written.bytes + s.typeSize * s.spaceSize) % TWO_64)
            && (op.SetExtent? && s.space == Simple ==>
                  t == s.(dims := op.size, spaceSize := Product(op.size) % TWO_64))
            && (op.SetExtent? && s.space != Simple ==> t == s)
            && (op.Remeasure? ==> t == s.(dims := op.dims, spaceSize := op.points))
  {
    match op
    case Read(_, sel) => ModAdd(s.read.bytes, s.typeSize * (match sel case InMemory(n) => n case _ => s.spaceSize));
    case Write(_, sel) => ModAdd(s.written.bytes, s.typeSize * (match sel case InMemory(n) => n case _ => s.spaceSize));
    case SetExtent(size) => assert size[..|s.dims|] == size;
    case Remeasure(_, _) =>
  }

  /** The true bytes of runs one after the other add up, and those of a single operation are the size of an
      element times what it moves: all of the dataset, or the points selected. */
  lemma {:induction false} TrueBytesAddUp(k: Known, ops: seq<StatOp>, more: seq<StatOp>, reading: bool)
    ensures TrueBytes(k, ops + more, reading)
         == TrueBytes(k, ops, reading) + TrueBytes(KnownAfter(k, ops), more, reading)
    decreases |ops|
  {
    if ops == [] {
      assert ops + more == more;
    } else {
      TrueBytesAddUp(k.Next(ops[0]), ops[1..], more, reading);
      assert (ops + more)[1..] == ops[1..] + more;
    }
  }

  lemma TrueBytesOfOne(k: Known, op: StatOp)
    ensures op.Read? ==> TrueBytes(k, [op], false) == 0
    ensures op.Write? ==> TrueBytes(k, [op], true) == 0
    ensures !op.Read? && !op.Write? ==> TrueBytes(k, [op], true) == TrueBytes(k, [op], false) == 0
    ensures op.Read? || op.Write? ==>
              TrueBytes(k, [op], op.Read?) == k.typeSize * (match op.sel
                                                            case InFile(n) => n
                                                            case InMemory(n) => n
                                                            case Whole => match k.space
                                                                          case Simple => Product(k.dims)
                                                                          case Scalar => 1
                                                                          case Null => 0)
  {
    assert [op][1..] == [];
  }

  /** What the code adds for a transfer. */
  lemma SizeBelieved(s: Stats, sel: Selection)
    requires StatsOk(s)
    ensures TransferSize(s, sel) == (s.typeSize * KnownOf(s).Believed(sel)) % TWO_64
  {
    if s.space == Simple { ModMul(s.typeSize, Product(s.dims)); }
  }

  lemma ApplyBytes(s: Stats, op: StatOp, reading: bool)
    requires StatsOk(s)
    ensures Apply(s, op).Tallied(reading).bytes
         == (s.Tallied(reading).bytes
             + if Transfers(op, reading) then s.typeSize * KnownOf(s).Believed(op.sel) else 0) % TWO_64
  {
    if Transfers(op, reading) {
      SizeBelieved(s, op.sel);
      ModAdd(s.Tallied(reading).bytes, s.typeSize * KnownOf(s).Believed(op.sel));
    }
  }

  /** The law of bytes: what is counted and what is missed make up what is moved. */
  ghost predicate BytesAddUp(s: Stats, ops: seq<StatOp>, reading: bool) {
    (After(s, ops).Tallied(reading).bytes + MissedBytes(KnownOf(s), ops, reading)) % TWO_64
    == (s.Tallied(reading).bytes + TrueBytes(KnownOf(s), ops, reading)) % TWO_64
  }

  /** It holds of every run on every dataset. */
  lemma {:induction false} BytesMoved(s: Stats, ops: seq<StatOp>, reading: bool)
    requires StatsOk(s) && Allowed(s, ops)
    ensures BytesAddUp(s, ops, reading)
    decreases |ops|
  {
    if ops != [] {
      ApplyKeepsOk(s, ops[0]);
      BytesMoved(Apply(s, ops[0]), ops[1..], reading);
      ApplyBytes(s, ops[0], reading);
      BytesStep(s, Apply(s, ops[0]), ops, reading);
    }
  }

  lemma {:induction false} BytesStep(s: Stats, t: Stats, ops: seq<StatOp>, reading: bool)
    requires ops != [] && t == Apply(s, ops[0]) && KnownOf(t) == KnownOf(s).Next(ops[0])
    requires t.Tallied(reading).bytes
          == (s.Tallied(reading).bytes
              + if Transfers(ops[0], reading) then s.typeSize * KnownOf(s).Believed(ops[0].sel) else 0) % TWO_64
    requires BytesAddUp(t, ops[1..], reading)
    ensures BytesAddUp(s, ops, reading)
  {
    var op, k := ops[0], KnownOf(s);
    var believed := if Transfers(op, reading) then k.typeSize * k.Believed(op.sel) else 0;
    var moved := if Transfers(op, reading) then k.typeSize * k.Moved(op.sel) else 0;
    FirstOperation(k, ops, reading);
    OneMore(s.Tallied(reading).bytes, believed, moved, t.Tallied(reading).bytes,
            After(t, ops[1..]).Tallied(reading).bytes,
            MissedBytes(KnownOf(t), ops[1..], reading), MissedBytes(k, ops, reading),
            TrueBytes(KnownOf(t), ops[1..], reading), TrueBytes(k, ops, reading));
  }

  lemma {:induction false} FirstOperation(k: Known, ops: seq<StatOp>, reading: bool)
    requires ops != []
    ensures var op := ops[0];
            var believed := if Transfers(op, reading) then k.typeSize * k.Believed(op.sel) else 0;
            var moved := if Transfers(op, reading) then k.typeSize * k.Moved(op.sel) else 0;
            && MissedBytes(k, ops, reading) == moved - believed + MissedBytes(k.Next(op), ops[1..], reading)
            && TrueBytes(k, ops, reading) == moved + TrueBytes(k.Next(op), ops[1..], reading)
  {
    if Transfers(ops[0], reading) {
      Distributes(k.typeSize, k.Moved(ops[0].sel), k.Believed(ops[0].sel));
    }
  }

  lemma Distributes(a: int, b: int, c: int)
    ensures a * (b - c) == a * b - a * c
  {
  }

  lemma OneMore(bytes: int, believed: int, moved: int, bytes': int, after: int, missed': int, missed: int,
                rest: int, total: int)
    requires bytes' == (bytes + believed) % TWO_64 && (after + missed') % TWO_64 == (bytes' + rest) % TWO_64
    requires missed == moved - believed + missed' && total == moved + rest
    ensures (after + missed) % TWO_64 == (bytes + total) % TWO_64
  {
    ModAdd(bytes + believed, rest);
    SameShift(after + missed', bytes + believed + rest, moved - believed);
  }

  lemma SameShift(a: int, b: int, d: int)
    requires a % TWO_64 == b % TWO_64
    ensures (a + d) % TWO_64 == (b + d) % TWO_64
  {
    ModAdd(a, d);
    ModAdd(b, d);
  }

  /** Main result on statistics: over any run of operations on any dataset, a byte total is the sum of
      the true transfer sizes modulo 2^64 if and only if the bytes missed are zero modulo 2^64. */
  lemma RunTotals(s: Stats, ops: seq<StatOp>, reading: bool)
    requires StatsOk(s) && Allowed(s, ops)
    ensures After(s, ops).Tallied(reading).bytes
            == (s.Tallied(reading).bytes + TrueBytes(KnownOf(s), ops, reading)) % TWO_64
            <==> MissedBytes(KnownOf(s), ops, reading) % TWO_64 == 0
  {
    BytesMoved(s, ops, reading);
    RunKeepsOk(s, ops);
    ExactIff(After(s, ops).Tallied(reading).bytes, MissedBytes(KnownOf(s), ops, reading),
             s.Tallied(reading).bytes + TrueBytes(KnownOf(s), ops, reading));
  }

  lemma ExactIff(after: nat, missed: int, sum: nat)
    requires after < TWO_64 && (after + missed) % TWO_64 == sum % TWO_64
    ensures after == sum % TWO_64 <==> missed % TWO_64 == 0
  {
    ModAdd(missed, after);
    if after == sum % TWO_64 {
      SameShift(after + missed, after, 0 - after);
    }
  }

  /** No transfer selects points in the file while its memory dataspace is H5S_ALL. */
  predicate NoneInFile(ops: seq<StatOp>) {
    forall op :: op in ops && (op.Read? || op.Write?) ==> !op.sel.InFile?
  }

  /** The number of transfers of the whole dataset before the first refresh. */
  function WholesUnmeasured(ops: seq<StatOp>, reading: bool): nat {
    if ops == [] || ops[0].Remeasure? then 0
    else (if Transfers(ops[0], reading) && ops[0].sel == Whole then 1 else 0) + WholesUnmeasured(ops[1..], reading)
  }

  /** Without such selections nothing is missed, but for whole transfers of a scalar dataset that was
      not refreshed since its record was made: each of those counts as nothing. */
  lemma {:induction false} MissedByScalars(k: Known, ops: seq<StatOp>, reading: bool)
    requires NoneInFile(ops) && (!k.measured ==> k.space == Scalar)
    ensures MissedBytes(k, ops, reading) == if k.measured then 0 else k.typeSize * WholesUnmeasured(ops, reading)
    decreases |ops|
  {
    if ops != [] {
      assert ops[0] in ops;
      assert forall op :: op in ops[1..] ==> op in ops;
      MissedByScalars(k.Next(ops[0]), ops[1..], reading);
      if Transfers(ops[0], reading) { MissedByOne(k, ops[0].sel); }
      Distributes(k.typeSize, WholesUnmeasured(ops[1..], reading), -1);
    }
  }

  lemma MissedByOne(k: Known, sel: Selection)
    requires !sel.InFile? && (!k.measured ==> k.space == Scalar)
    ensures k.typeSize * (k.Moved(sel) - k.Believed(sel)) == if !k.measured && sel == Whole then k.typeSize else 0
  {
    assert k.Moved(sel) - k.Believed(sel) == if !k.measured && sel == Whole then 1 else 0;
  }

  lemma MissedIff(k: Known, ops: seq<StatOp>, reading: bool)
    requires NoneInFile(ops) && (!k.measured ==> k.space == Scalar)
    ensures MissedBytes(k, ops, reading) % TWO_64 == 0
            <==> k.measured || (k.typeSize * WholesUnmeasured(ops, reading)) % TWO_64 == 0
  {
    MissedByScalars(k, ops, reading);
  }

  /** So byte totals are exact if and only if the dataset is not scalar, or is measured, or the size of
      its whole transfers before the first refresh is zero modulo 2^64. */
  lemma RunTotalsIff(s: Stats, ops: seq<StatOp>, reading: bool)
    requires StatsOk(s) && Allowed(s, ops) && NoneInFile(ops)
    ensures After(s, ops).Tallied(reading).bytes
            == (s.Tallied(reading).bytes + TrueBytes(KnownOf(s), ops, reading)) % TWO_64
            <==> KnownOf(s).measured || (s.typeSize * WholesUnmeasured(ops, reading)) % TWO_64 == 0
  {
    RunTotals(s, ops, reading);
    MissedIff(KnownOf(s), ops, reading);
  }

  /** One transfer is counted right if and only if the elements it moves and those it is believed to move
      come to the same size. */
  lemma TransferIff(s: Stats, sel: Selection)
    requires StatsOk(s)
    ensures TransferSize(s, sel) == (s.typeSize * KnownOf(s).Moved(sel)) % TWO_64
            <==> (s.typeSize * (KnownOf(s).Moved(sel) - KnownOf(s).Believed(sel))) % TWO_64 == 0
  {
    SizeBelieved(s, sel);
    DifferenceIff(s.typeSize, KnownOf(s).Moved(sel), KnownOf(s).Believed(sel));
  }

  lemma DifferenceIff(size: nat, a: nat, b: nat)
    ensures (size * b) % TWO_64 == (size * a) % TWO_64 <==> (size * (a - b)) % TWO_64 == 0
  {
    Distributes(size, a, b);
    ModAdd(size * a - size * b, size * b);
    ExactIff((size * b) % TWO_64, size * a - size * b, size * a);
  }

  /** A scalar dataset of eight bytes, read whole: nothing is counted. */
  lemma ScalarCountsNothing()
    ensures var s := NewStats(Extent(Scalar, [], 8, 1));
            && Apply(s, Read(Independent, Whole)).read.bytes == 0
            && TrueBytes(KnownOf(s), [Read(Independent, Whole)], true) == 8
  {
    var k := Known(Scalar, [], 8, false);
    assert TrueBytes(k, [], true) == 0;
    assert [Read(Independent, Whole)][1..] == [];
  }

  /** One point of ten, selected in the file only: all ten are counted. */
  lemma FileSelectionCountsAll()
    ensures var s := NewStats(Extent(Simple, [10], 8, 10));
            && Apply(s, Read(Independent, InFile(1))).read.bytes == 80
            && TrueBytes(KnownOf(s), [Read(Independent, InFile(1))], true) == 8
  {
    var k := Known(Simple, [10], 8, true);
    assert TrueBytes(k, [], true) == 0;
    assert [Read(Independent, InFile(1))][1..] == [];
  }

  /** Over any run the counters stay in order, and the element count of a simple dataset is the product
      of its dimensions, which are those last set. */
  lemma {:induction false} RunKeepsOk(s: Stats, ops: seq<StatOp>)
    requires StatsOk(s) && Allowed(s, ops)
    ensures StatsOk(After(s, ops))
    ensures KnownOf(After(s, ops)) == KnownAfter(KnownOf(s), ops)
    decreases |ops|
  {
    if ops != [] {
      ApplyKeepsOk(s, ops[0]);
      RunKeepsOk(Apply(s, ops[0]), ops[1..]);
    }
  }

  function KnownAfter(k: Known, ops: seq<StatOp>): Known
    decreases |ops|
  {
    if ops == [] then k else KnownAfter(k.Next(ops[0]), ops[1..])
  }

  /** Transfers by what the code asks of their mode. */
  datatype Sort = Any | Separate | Together | Broken {
    predicate Of(mode: Mode) {
      match this
      case Any => true
      case Separate => mode.Independent?
      case Together => mode.Collective?
      case Broken => mode == Collective(false)
    }
  }

  /** How many transfers in the direction are of the sort. */
  function HowMany(ops: seq<StatOp>, reading: bool, sort: Sort): nat {
    if ops == [] then 0
    else (if Transfers(ops[0], reading) && sort.Of(ops[0].mode) then 1 else 0) + HowMany(ops[1..], reading, sort)
  }

  /** Every successful transfer is counted once in its direction, and once by its mode. */
  lemma {:induction false} RunCounts(s: Stats, ops: seq<StatOp>, reading: bool)
    ensures var before, t := s.Tallied(reading), After(s, ops).Tallied(reading);
            && t.cnt == before.cnt + HowMany(ops, reading, Any)
            && t.independent == before.independent + HowMany(ops, reading, Separate)
            && t.collective == before.collective + HowMany(ops, reading, Together)
            && t.broken == before.broken + HowMany(ops, reading, Broken)
    decreases |ops|
  {
    if ops != [] {
      RunCounts(Apply(s, ops[0]), ops[1..], reading);
    }
  }
}
