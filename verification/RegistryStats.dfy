/** The statistics of a dataset over runs of the registry: from the open that makes its record, through
    any interleaving with other callbacks, to the record as it stands. */
module RegistryStats {
  import opened CMachine
  import opened DatasetStats
  import opened RegistrySpec
  import opened RegistryInvariant
  import opened RegistryRuns

  /** The operations on `o` in a run. */
  function OpsOn<F, O(==)>(es: seq<Event<F, O>>, o: O): seq<StatOp> {
    if es == [] then []
    else (if es[0].Operate? && es[0].o == o then [es[0].op] else []) + OpsOn(es[1..], o)
  }

  /** The record of `o` is not freed anywhere in the run. */
  ghost predicate Stays<F, O>(s: State<F, O>, es: seq<Event<F, O>>, o: O)
    decreases |es|
  {
    && o in s.reg.objAt
    && (es == [] || (Step(s, es[0]).Done? ==> Stays(Step(s, es[0]).value, es[1..], o)))
  }

  /** A step applies the operation, if it is one on `o`, and leaves the statistics of `o` otherwise. */
  lemma StepStats<F, O>(s: State<F, O>, e: Event<F, O>, o: O)
    requires Inv(s) && Enabled(s, e) && Step(s, e).Done? && o in s.reg.objAt && o in Step(s, e).value.reg.objAt
    ensures Step(s, e).value.reg.objAt[o].stats == After(s.reg.objAt[o].stats, OpsOn([e], o))
    ensures Allowed(s.reg.objAt[o].stats, OpsOn([e], o))
  {
    if e.Operate? && e.o == o {
      assert OpsOn([e], o) == [e.op];
    } else {
      StepKeepsRecord(s, e, o);
    }
  }

  /** Whatever else happens in a run, the statistics of a record that is not freed are those of the
      operations on it, in their order. */
  lemma {:induction false} RunStats<F, O>(s: State<F, O>, es: seq<Event<F, O>>, o: O)
    requires Inv(s) && Legal(s, es) && Stays(s, es, o)
    ensures Exec(s, es).Done? && o in Exec(s, es).value.reg.objAt
    ensures Exec(s, es).value.reg.objAt[o].stats == After(s.reg.objAt[o].stats, OpsOn(es, o))
    ensures Allowed(s.reg.objAt[o].stats, OpsOn(es, o))
    decreases |es|
  {
    if es != [] {
      StepIsSafe(s, es[0]);
      StepStats(s, es[0], o);
      RunStats(Step(s, es[0]).value, es[1..], o);
      FirstOps(s.reg.objAt[o].stats, es, o);
    }
  }

  lemma FirstOps<F, O>(stats: Stats, es: seq<Event<F, O>>, o: O)
    requires es != []
    ensures After(stats, OpsOn(es, o)) == After(After(stats, OpsOn([es[0]], o)), OpsOn(es[1..], o))
    ensures Allowed(stats, OpsOn([es[0]], o)) && Allowed(After(stats, OpsOn([es[0]], o)), OpsOn(es[1..], o))
            ==> Allowed(stats, OpsOn(es, o))
  {
    if es[0].Operate? && es[0].o == o {
      assert OpsOn(es, o)[1..] == OpsOn(es[1..], o);
      assert OpsOn([es[0]], o) == [es[0].op];
    } else {
      assert OpsOn(es, o) == OpsOn(es[1..], o);
    }
  }

  /** The open of a dataset that is not registered makes its record from what HDF5 reports. */
  lemma OpenMakesStats<F, O>(s: State<F, O>, e: Event<F, O>)
    requires Inv(s) && Enabled(s, e) && e.OpenObj? && e.kind == Dataset && Step(s, e).Done?
    requires e.newObj !in s.reg.objAt && e.newObj in Step(s, e).value.reg.objAt
    ensures Step(s, e).value.reg.objAt[e.newObj].stats == NewStats(e.extent)
  {
    UpperFileLive(s, e.upper);
    LinksAreLive(s.reg);
  }

  /** A dataset is opened that is not registered, and any run follows that does not free its record. */
  ghost predicate OpenedAndKept<F, O>(s: State<F, O>, e: Event<F, O>, es: seq<Event<F, O>>) {
    && Inv(s) && Enabled(s, e) && !Homeless(s, e) && e.OpenObj? && e.kind == Dataset
    && Step(s, e).Done? && e.newObj !in s.reg.objAt
    && Legal(Step(s, e).value, es) && Stays(Step(s, e).value, es, e.newObj)
  }

  /** The run goes through, and the record's statistics are those of the operations on it. */
  lemma RecordStats<F, O>(s: State<F, O>, e: Event<F, O>, es: seq<Event<F, O>>)
    requires OpenedAndKept(s, e, es)
    ensures Exec(Step(s, e).value, es).Done? && e.newObj in Exec(Step(s, e).value, es).value.reg.objAt
    ensures Exec(Step(s, e).value, es).value.reg.objAt[e.newObj].stats
         == After(NewStats(e.extent), OpsOn(es, e.newObj))
    ensures e.extent.Reported() && Allowed(NewStats(e.extent), OpsOn(es, e.newObj))
  {
    StepIsSafe(s, e);
    OpenMakesStats(s, e);
    RunStats(Step(s, e).value, es, e.newObj);
  }

  /** The statistics of the record at the end of the run. */
  ghost function FinalStats<F, O>(s: State<F, O>, e: Event<F, O>, es: seq<Event<F, O>>): Stats
    requires OpenedAndKept(s, e, es)
  {
    RecordStats(s, e, es);
    Exec(Step(s, e).value, es).value.reg.objAt[e.newObj].stats
  }

  /** Main result on counters: they are the numbers of successful transfers on the dataset in the run,
      by direction and mode. */
  lemma RecordCounts<F, O>(s: State<F, O>, e: Event<F, O>, es: seq<Event<F, O>>, reading: bool)
    requires OpenedAndKept(s, e, es)
    ensures var tally, ops := FinalStats(s, e, es).Tallied(reading), OpsOn(es, e.newObj);
            && tally.cnt == HowMany(ops, reading, Any)
            && tally.independent == HowMany(ops, reading, Separate)
            && tally.collective == HowMany(ops, reading, Together)
            && tally.broken == HowMany(ops, reading, Broken)
  {
    RecordStats(s, e, es);
    RunCounts(NewStats(e.extent), OpsOn(es, e.newObj), reading);
  }

  /** What HDF5 reported when the dataset was opened. */
  function FirstKnown(extent: Extent): Known {
    Known(extent.space, extent.dims, extent.typeSize, extent.space != Scalar)
  }

  /** Main result on bytes: a total is the sum of the true sizes of the transfers in the run modulo 2^64
      if and only if the bytes missed are zero modulo 2^64. */
  lemma RecordBytes<F, O>(s: State<F, O>, e: Event<F, O>, es: seq<Event<F, O>>, reading: bool)
    requires OpenedAndKept(s, e, es)
    ensures var ops, known := OpsOn(es, e.newObj), FirstKnown(e.extent);
            FinalStats(s, e, es).Tallied(reading).bytes == TrueBytes(known, ops, reading) % TWO_64
            <==> MissedBytes(known, ops, reading) % TWO_64 == 0
  {
    RecordStats(s, e, es);
    NewRecordBytes(e.extent, OpsOn(es, e.newObj), reading);
    NewStatsKnown(e.extent);
  }

  /** When no transfer selects points in the file only, that is so if and only if the dataset is not
      scalar, or its whole transfers before the first refresh come to nothing modulo 2^64. */
  lemma RecordBytesIff<F, O>(s: State<F, O>, e: Event<F, O>, es: seq<Event<F, O>>, reading: bool)
    requires OpenedAndKept(s, e, es) && NoneInFile(OpsOn(es, e.newObj))
    ensures var ops, known := OpsOn(es, e.newObj), FirstKnown(e.extent);
            FinalStats(s, e, es).Tallied(reading).bytes == TrueBytes(known, ops, reading) % TWO_64
            <==> e.extent.space != Scalar || (e.extent.typeSize * WholesUnmeasured(ops, reading)) % TWO_64 == 0
  {
    RecordBytes(s, e, es, reading);
    MissedIff(FirstKnown(e.extent), OpsOn(es, e.newObj), reading);
  }

  /** The same of any record that starts from nothing. */
  ghost predicate ExactIffNoneMissed(stats: Stats, ops: seq<StatOp>, reading: bool) {
    After(stats, ops).Tallied(reading).bytes == TrueBytes(KnownOf(stats), ops, reading) % TWO_64
    <==> MissedBytes(KnownOf(stats), ops, reading) % TWO_64 == 0
  }

  lemma NewRecordBytes(extent: Extent, ops: seq<StatOp>, reading: bool)
    requires extent.Reported() && Allowed(NewStats(extent), ops)
    ensures ExactIffNoneMissed(NewStats(extent), ops, reading)
  {
    NewStatsOk(extent);
    NothingMoved(extent, reading);
    BytesFromNothing(NewStats(extent), ops, reading);
  }

  lemma NothingMoved(extent: Extent, reading: bool)
    ensures NewStats(extent).Tallied(reading).bytes == 0
  {
  }

  lemma BytesFromNothing(stats: Stats, ops: seq<StatOp>, reading: bool)
    requires StatsOk(stats) && Allowed(stats, ops) && stats.Tallied(reading).bytes == 0
    ensures ExactIffNoneMissed(stats, ops, reading)
  {
    RunTotals(stats, ops, reading);
    assert stats.Tallied(reading).bytes + TrueBytes(KnownOf(stats), ops, reading)
        == TrueBytes(KnownOf(stats), ops, reading);
  }

  /** Main result on the element count: at the end of the run the dimensions are those last set or
      measured, and the count is known of them unless the dataset is scalar and no refresh measured it. */
  lemma RecordKnown<F, O>(s: State<F, O>, e: Event<F, O>, es: seq<Event<F, O>>)
    requires OpenedAndKept(s, e, es)
    ensures KnownOf(FinalStats(s, e, es)) == KnownAfter(FirstKnown(e.extent), OpsOn(es, e.newObj))
  {
    RecordStats(s, e, es);
    KnownRun(e.extent, OpsOn(es, e.newObj));
  }

  lemma KnownRun(extent: Extent, ops: seq<StatOp>)
    requires extent.Reported() && Allowed(NewStats(extent), ops)
    ensures KnownOf(After(NewStats(extent), ops)) == KnownAfter(FirstKnown(extent), ops)
  {
    assert KnownOf(After(NewStats(extent), ops)) == KnownAfter(KnownOf(NewStats(extent)), ops) by {
      NewStatsRun(extent, ops);
    }
    NewStatsKnown(extent);
  }

  /** The count known is that of the dataspace, modulo 2^64; and each count of transfers is the sum of
      the independent and the collective ones. */
  lemma RecordOk<F, O>(s: State<F, O>, e: Event<F, O>, es: seq<Event<F, O>>)
    requires OpenedAndKept(s, e, es)
    ensures StatsOk(FinalStats(s, e, es))
  {
    RecordStats(s, e, es);
    NewStatsRun(e.extent, OpsOn(es, e.newObj));
  }

  lemma NewStatsRun(extent: Extent, ops: seq<StatOp>)
    requires extent.Reported() && Allowed(NewStats(extent), ops)
    ensures StatsOk(After(NewStats(extent), ops))
    ensures KnownOf(After(NewStats(extent), ops)) == KnownAfter(KnownOf(NewStats(extent)), ops)
  {
    NewStatsOk(extent);
    RunKeepsOk(NewStats(extent), ops);
  }
}
