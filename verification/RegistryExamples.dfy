/** Runs of the registry that end as they should not, with concrete addresses, tokens and file numbers. */
module RegistryExamples {
  import opened Results
  import opened DatasetStats
  import opened RegistrySpec
  import opened RegistryRuns

  // ---- what a missing home file leads to ----

  /** File 1 is open; a dataset that lives in file 2, which is not open, is opened through it; file 2
      is then opened, and the dataset closed. */
  const HOMELESS_RUN: seq<Event<nat, nat>> := [
    OpenFile(1, 10),
    OpenObj(ViaFile(10), Dataset, 5, 2, Extent(Null, [], 0, 0), 20, 11),
    OpenFile(2, 12),
    CloseObj(20)
  ]

  /** A file record with one reference and no objects. */
  function Opened(no: nat): FileRec<nat> {
    NewFile(no).(refCnt := 1)
  }

  ghost const AFTER_FILE_1: State<nat, nat> := State(Reg([10], 1, map[10 := Opened(1)], map[]),
                                    1, multiset{10}, multiset{}, 0, multiset{}, multiset{}, multiset{})
  ghost const AFTER_DATASET: State<nat, nat> := State(Reg([10], 1,
                                         map[10 := Opened(1), 11 := Opened(2).(datasets := OpenList([20], 1))],
                                         map[20 := ObjRec(Dataset, 11, 5, 1, NO_STATS)]),
                                     2, multiset{10}, multiset{20}, 0, multiset{}, multiset{}, multiset{})
  ghost const AFTER_FILE_2: State<nat, nat> :=
    AFTER_DATASET.(reg := AFTER_DATASET.reg.(files := [12, 10], filesCnt := 2,
                                             fileAt := AFTER_DATASET.reg.fileAt[12 := Opened(2)]),
                   ptrCnt := 3, fileHandles := multiset{10, 12})
  ghost const AFTER_CLOSE: State<nat, nat> := State(Reg([10], 1, map[10 := Opened(1), 11 := Opened(2)], map[]),
                                   2, multiset{10, 12}, multiset{}, 0, multiset{}, multiset{}, multiset{})

  lemma HomelessStep1()
    ensures Enabled(Initial<nat, nat>(), HOMELESS_RUN[0])
    ensures Step(Initial<nat, nat>(), HOMELESS_RUN[0]) == Done(AFTER_FILE_1)
  {
    var r := Initial<nat, nat>().reg;
    assert [10] + r.files == [10] && r.fileAt[10 := Opened(1)] == map[10 := Opened(1)];
    assert AddFile(r, 1, 10) == Done((AFTER_FILE_1.reg, 10));
    assert multiset{} + multiset{10 as nat} == multiset{10 as nat};
  }

  lemma HomelessStep2()
    ensures Enabled(AFTER_FILE_1, HOMELESS_RUN[1])
    ensures Step(AFTER_FILE_1, HOMELESS_RUN[1]) == Done(AFTER_DATASET)
  {
    var r := AFTER_FILE_1.reg;
    assert FileIndex([10], r.fileAt, 2) == 1;
    var faked := r.(fileAt := r.fileAt[11 := NewFile(2)]);
    assert [20] + [] == [20];
    assert Link(Retain(faked, 11), 11, Dataset, 5, NO_STATS, 20) == AFTER_DATASET.reg by {
      assert faked.fileAt[11 := Opened(2)][11 := Opened(2).(datasets := OpenList([20], 1))]
          == AFTER_DATASET.reg.fileAt;
    }
    assert AddDataset(r, 10, 2, 5, NO_STATS, 20, 11) == Done((AFTER_DATASET.reg, 20));
    assert multiset{} + multiset{20 as nat} == multiset{20 as nat};
    assert AFTER_FILE_1.leaks + multiset{} == multiset{};
  }

  lemma HomelessStep3()
    ensures Enabled(AFTER_DATASET, HOMELESS_RUN[2])
    ensures Step(AFTER_DATASET, HOMELESS_RUN[2]) == Done(AFTER_FILE_2)
  {
    var r := AFTER_DATASET.reg;
    assert FileIndex([10], r.fileAt, 2) == 1;
    assert [12] + [10] == [12, 10];
    assert AddFile(r, 2, 12) == Done((AFTER_FILE_2.reg, 12));
    assert multiset{10 as nat} + multiset{12 as nat} == multiset{10, 12};
  }

  lemma HomelessStep4()
    ensures Enabled(AFTER_FILE_2, HOMELESS_RUN[3])
    ensures Step(AFTER_FILE_2, HOMELESS_RUN[3]) == Done(AFTER_CLOSE)
  {
    var r := AFTER_FILE_2.reg;
    assert Without([20], 0) == [];
    assert Without([12, 10], 0) == [10];
    var dropped := r.(objAt := map[20 := ObjRec(Dataset, 11, 5, 0, NO_STATS)]);
    assert r.objAt[20 := r.objAt[20].(refCnt := 0)] == dropped.objAt;
    assert TokenIndex([20], dropped.objAt, 5) == 0;
    var unlinked := Unlink(dropped, 11, Dataset, 0);
    assert FileIndex(unlinked.files, unlinked.fileAt, 2) == 0;
    assert unlinked.objAt == map[];
    assert unlinked.fileAt[11] == Opened(2) && unlinked.fileAt[12] == Opened(2);
    assert unlinked.fileAt - {12} == AFTER_CLOSE.reg.fileAt;
    assert RmFile(unlinked, 2) == Done(AFTER_CLOSE.reg);
    assert multiset{20 as nat} - multiset{20 as nat} == multiset{};
  }

  /** A run that starts with a step. */
  lemma FirstStep(s: State<nat, nat>, e: Event<nat, nat>, t: State<nat, nat>, es: seq<Event<nat, nat>>)
    requires es != [] && es[0] == e && Enabled(s, e) && Step(s, e) == Done(t)
    ensures Exec(s, es) == Exec(t, es[1..])
    ensures Possible(t, es[1..]) ==> Possible(s, es)
    ensures Legal(t, es[1..]) && !Homeless(s, e) ==> Legal(s, es)
  {
  }

  /** HDF5 may make this run. Closing a dataset without a home takes a reference from whatever file has
      the number by then: the record of file 2 is freed under a live handle, and closing that handle
      faults. */
  lemma HomelessOpenFreesEarly()
    ensures Possible(Initial<nat, nat>(), HOMELESS_RUN)
    ensures Exec(Initial<nat, nat>(), HOMELESS_RUN) == Done(AFTER_CLOSE)
    ensures Enabled(AFTER_CLOSE, CloseFile(12)) && Step(AFTER_CLOSE, CloseFile(12)).Fault?
  {
    HomelessRunFrom2();
    HomelessStep1();
    FirstStep(Initial<nat, nat>(), HOMELESS_RUN[0], AFTER_FILE_1, HOMELESS_RUN);
  }

  lemma HomelessRunFrom2()
    ensures Possible(AFTER_FILE_1, HOMELESS_RUN[1..])
    ensures Exec(AFTER_FILE_1, HOMELESS_RUN[1..]) == Done(AFTER_CLOSE)
  {
    HomelessRunFrom3();
    HomelessStep2();
    assert HOMELESS_RUN[1..][1..] == HOMELESS_RUN[2..];
    FirstStep(AFTER_FILE_1, HOMELESS_RUN[1], AFTER_DATASET, HOMELESS_RUN[1..]);
  }

  lemma HomelessRunFrom3()
    ensures Possible(AFTER_DATASET, HOMELESS_RUN[2..])
    ensures Exec(AFTER_DATASET, HOMELESS_RUN[2..]) == Done(AFTER_CLOSE)
  {
    HomelessStep3();
    HomelessStep4();
    var last := HOMELESS_RUN[3..];
    assert HOMELESS_RUN[2..][1..] == last && last[1..] == [];
    FirstStep(AFTER_FILE_2, HOMELESS_RUN[3], AFTER_CLOSE, last);
    FirstStep(AFTER_DATASET, HOMELESS_RUN[2], AFTER_FILE_2, HOMELESS_RUN[2..]);
  }

  // ---- what an external open leads to ----

  /** Files 1 and 2 are open; a dataset of file 2 is opened through file 1; all is closed. */
  const EXTERNAL_RUN: seq<Event<nat, nat>> := [
    OpenFile(1, 10),
    OpenFile(2, 12),
    OpenObj(ViaFile(10), Dataset, 5, 2, Extent(Null, [], 0, 0), 20, 11),
    CloseObj(20),
    CloseFile(10),
    CloseFile(12)
  ]

  ghost const BOTH_OPEN: State<nat, nat> := State(
    Reg([12, 10], 2, map[10 := Opened(1), 12 := Opened(2)], map[]),
    2, multiset{10, 12}, multiset{}, 0, multiset{}, multiset{}, multiset{})

  lemma ExternalStep2()
    ensures Enabled(AFTER_FILE_1, EXTERNAL_RUN[1])
    ensures Step(AFTER_FILE_1, EXTERNAL_RUN[1]) == Done(BOTH_OPEN)
  {
    var r := AFTER_FILE_1.reg;
    assert FileIndex([10], r.fileAt, 2) == 1;
    assert [12] + [10] == [12, 10];
    assert AddFile(r, 2, 12) == Done((BOTH_OPEN.reg, 12));
    assert multiset{10 as nat} + multiset{12 as nat} == multiset{10, 12};
  }

  /** The open takes a reference on file 2 for the dataset and another that is leaked. */
  lemma ExternalStep3() returns (t: State<nat, nat>)
    ensures Enabled(BOTH_OPEN, EXTERNAL_RUN[2]) && !Homeless(BOTH_OPEN, EXTERNAL_RUN[2])
    ensures IsExternalTo(BOTH_OPEN, EXTERNAL_RUN[2], 12)
    ensures Step(BOTH_OPEN, EXTERNAL_RUN[2]) == Done(t)
    ensures t.objHandles == multiset{20} && t.leaks == multiset{12} && t.fileHandles == BOTH_OPEN.fileHandles
    ensures t.requests == 0 && t.ctxs == multiset{} && t.holds == multiset{}
  {
    var r := BOTH_OPEN.reg;
    assert FileIndex(r.files, r.fileAt, 2) == 0;
    assert HomeOf(r, 2) == Some(12);
    var held := Retain(r, 12);
    assert held.fileAt[12].Of(Dataset).nodes == [];
    var added := Link(Retain(held, 12), 12, Dataset, 5, NO_STATS, 20);
    assert AddDataset(r, 10, 2, 5, NO_STATS, 20, 11) == Done((added, 20));
    t := AfterOpen(BOTH_OPEN, added, 20, multiset{12});
    assert multiset{} + multiset{20 as nat} == multiset{20 as nat};
    assert multiset{} + multiset{12 as nat} == multiset{12 as nat};
  }

  lemma StepInv(s: State<nat, nat>, e: Event<nat, nat>, t: State<nat, nat>)
    requires Inv(s) && Enabled(s, e) && !Homeless(s, e) && Step(s, e) == Done(t)
    ensures Inv(t)
  {
    StepIsSafe(s, e);
  }

  lemma FirstFileInv()
    ensures Inv(AFTER_FILE_1)
  {
    InitialInv<nat, nat>();
    HomelessStep1();
    StepInv(Initial<nat, nat>(), EXTERNAL_RUN[0], AFTER_FILE_1);
  }

  lemma BothFilesInv()
    ensures Inv(BOTH_OPEN)
  {
    FirstFileInv();
    ExternalStep2();
    StepInv(AFTER_FILE_1, EXTERNAL_RUN[1], BOTH_OPEN);
  }

  lemma ExternalRunFrom3()
    ensures Legal(BOTH_OPEN, EXTERNAL_RUN[2..]) ==> Legal(Initial<nat, nat>(), EXTERNAL_RUN)
    ensures Exec(Initial<nat, nat>(), EXTERNAL_RUN) == Exec(BOTH_OPEN, EXTERNAL_RUN[2..])
  {
    HomelessStep1();
    ExternalStep2();
    assert EXTERNAL_RUN[1..][1..] == EXTERNAL_RUN[2..];
    FirstStep(AFTER_FILE_1, EXTERNAL_RUN[1], BOTH_OPEN, EXTERNAL_RUN[1..]);
    FirstStep(Initial<nat, nat>(), EXTERNAL_RUN[0], AFTER_FILE_1, EXTERNAL_RUN);
  }

  /** What is left of handles when a run starts by closing one. */
  lemma Closes(s: State<nat, nat>, es: seq<Event<nat, nat>>) returns (t: State<nat, nat>)
    requires Inv(s) && es != [] && Enabled(s, es[0]) && (es[0].CloseObj? || es[0].CloseFile?)
    ensures Inv(t) && Exec(s, es) == Exec(t, es[1..]) && (Legal(t, es[1..]) ==> Legal(s, es))
    ensures t == s.(reg := t.reg, ptrCnt := t.ptrCnt,
                    fileHandles := if es[0].CloseFile? then s.fileHandles - multiset{es[0].f} else s.fileHandles,
                    objHandles := if es[0].CloseObj? then s.objHandles - multiset{es[0].o} else s.objHandles)
  {
    StepIsSafe(s, es[0]);
    t := Step(s, es[0]).value;
    FirstStep(s, es[0], t, es);
  }

  /** The run is legal and releases everything, and file 2 is open for ever: its record counts the leaked
      reference. */
  lemma ExternalOpenLeaks()
    ensures Legal(Initial<nat, nat>(), EXTERNAL_RUN) && Exec(Initial<nat, nat>(), EXTERNAL_RUN).Done?
    ensures var t := Exec(Initial<nat, nat>(), EXTERNAL_RUN).value;
            && AllReleased(t) && t.leaks == multiset{12}
            && 12 in t.reg.fileAt && t.reg.fileAt[12].refCnt == 1
  {
    BothFilesInv();
    ExternalRunFrom3();
    var begun := ExternalStep3();
    StepInv(BOTH_OPEN, EXTERNAL_RUN[2], begun);
    var t := CloseAll(begun);
    assert EXTERNAL_RUN[2..][1..] == EXTERNAL_RUN[3..];
    FirstStep(BOTH_OPEN, EXTERNAL_RUN[2], begun, EXTERNAL_RUN[2..]);
    NothingHeld(t);
    assert 12 in FileOwners(t);
  }

  lemma CloseAll(begun: State<nat, nat>) returns (t: State<nat, nat>)
    requires Inv(begun) && begun.fileHandles == multiset{10, 12} && begun.objHandles == multiset{20}
    requires begun.requests == 0 && begun.ctxs == multiset{} && begun.holds == multiset{}
    ensures Legal(begun, EXTERNAL_RUN[3..]) && Exec(begun, EXTERNAL_RUN[3..]) == Done(t)
    ensures Inv(t) && AllReleased(t) && t.leaks == begun.leaks
  {
    assert EXTERNAL_RUN[3..][1..] == EXTERNAL_RUN[4..] && EXTERNAL_RUN[4..][1..] == EXTERNAL_RUN[5..];
    assert EXTERNAL_RUN[5..][1..] == [];
    var a := Closes(begun, EXTERNAL_RUN[3..]);
    var b := Closes(a, EXTERNAL_RUN[4..]);
    assert multiset{10 as nat, 12} - multiset{10} == multiset{12 as nat};
    t := Closes(b, EXTERNAL_RUN[5..]);
  }
}
