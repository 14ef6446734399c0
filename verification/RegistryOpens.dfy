/** Where opens and wrap contexts end: which file and which list the record with the new handle belongs
    to, in terms of the records and numbers that a caller can see. */
module RegistryOpens {
  import opened Results
  import opened DatasetStats
  import opened RegistrySpec
  import opened RegistryInvariant
  import opened RegistryRuns

  /** An open of a file: the handle is on the one open file with that number, and a new one is in front
      of the list. */
  lemma FileOpened<F, O>(s: State<F, O>, no: nat, newFile: F) returns (f: F)
    requires Inv(s) && no != 0 && FileAddress(s.reg, no, newFile)
    ensures Step(s, OpenFile(no, newFile)).Done?
    ensures var t := Step(s, OpenFile(no, newFile)).value;
            && t.fileHandles == s.fileHandles + multiset{f}
            && f in t.reg.fileAt && t.reg.fileAt[f].fileNo == no
            && (f !in s.reg.fileAt ==> f == newFile && t.reg.files == [f] + s.reg.files && t.reg.fileAt[f].refCnt == 1)
            && (f in s.reg.fileAt ==> t.reg.files == s.reg.files
                                      && t.reg.fileAt[f] == s.reg.fileAt[f].(refCnt := s.reg.fileAt[f].refCnt + 1))
  {
    var reg;
    reg, f := FileOpens(s, no, newFile);
    OpenFileStep(s, no, newFile, reg, f);
    AddedFile(s.reg, FileOwners(s), ObjOwners(s), no, newFile);
  }

  lemma AddedFile<F, O>(r: Reg<F, O>, fo: multiset<F>, oo: multiset<O>, no: nat, newFile: F)
    requires Balanced(r, fo, oo) && no != 0 && FileAddress(r, no, newFile)
    ensures AddFile(r, no, newFile).Done?
    ensures var (r', f) := AddFile(r, no, newFile).value;
            && f in r'.fileAt && r'.fileAt[f].fileNo == no
            && (f !in r.fileAt ==> f == newFile && r'.files == [f] + r.files && r'.fileAt[f].refCnt == 1)
            && (f in r.fileAt ==> r'.files == r.files
                                  && r'.fileAt[f] == r.fileAt[f].(refCnt := r.fileAt[f].refCnt + 1))
  {
    AddFileGives(r, fo, oo, no, newFile);
    if newFile in r.fileAt { FileIndexExact(r, newFile); }
  }

  /** The node is on the list of its kind. */
  ghost predicate OnItsList<F, O>(r: Reg<F, O>, o: O)
    requires o in r.objAt && r.objAt[o].file in r.fileAt
  {
    var file := r.fileAt[r.objAt[o].file];
    match r.objAt[o].kind
    case Dataset => o in file.datasets.nodes
    case Group => o in file.groups.nodes
    case Datatype => o in file.datatypes.nodes
    case Attribute => o in file.attributes.nodes
  }

  /** The node was put in front of the list of its kind. */
  ghost predicate InFront<O>(o: O, k: Kind, before: FileRec<O>, after: FileRec<O>) {
    && after.datasets.nodes == (if k == Dataset then [o] else []) + before.datasets.nodes
    && after.groups.nodes == (if k == Group then [o] else []) + before.groups.nodes
    && after.datatypes.nodes == (if k == Datatype then [o] else []) + before.datatypes.nodes
    && after.attributes.nodes == (if k == Attribute then [o] else []) + before.attributes.nodes
  }

  /** An open of an object: the record with the new handle has the kind and token asked for and is on
      that list of its file. A known record only counts one more; a new one is the given address, has one
      reference and is in front of its list. */
  lemma ObjOpened<F, O>(s: State<F, O>, e: Event<F, O>) returns (o: O)
    requires Inv(s) && Enabled(s, e) && e.OpenObj? && !Homeless(s, e)
    ensures Step(s, e).Done?
    ensures var t := Step(s, e).value;
            && t.objHandles == s.objHandles + multiset{o} && o in t.reg.objAt
            && t.reg.objAt[o].kind == e.kind && t.reg.objAt[o].token == e.token
            && t.reg.objAt[o].file in t.reg.files && t.reg.objAt[o].file in t.reg.fileAt && OnItsList(t.reg, o)
            && (o in s.reg.objAt ==> t.reg.objAt[o] == s.reg.objAt[o].(refCnt := s.reg.objAt[o].refCnt + 1))
            && (o !in s.reg.objAt ==>
                  && o == e.newObj && t.reg.objAt[o].refCnt == 1 && t.reg.objAt[o].file in s.reg.fileAt
                  && InFront(o, e.kind, s.reg.fileAt[t.reg.objAt[o].file], t.reg.fileAt[t.reg.objAt[o].file]))
            && t.reg.objAt - {o} == s.reg.objAt - {o}
  {
    var f;
    o, f := OpenedRecord(s, e);
  }

  /** A group, datatype or attribute belongs to the file of what it was opened through: the file itself,
      the file of the object, or the file of the wrap context. */
  lemma OpenedThrough<F, O>(s: State<F, O>, e: Event<F, O>) returns (o: O)
    requires Inv(s) && Enabled(s, e) && e.OpenObj? && e.kind != Dataset
    ensures Step(s, e).Done? && (e.upper.ViaObj? ==> e.upper.o in s.reg.objAt)
    ensures var t := Step(s, e).value;
            && t.objHandles == s.objHandles + multiset{o} && o in t.reg.objAt
            && t.reg.objAt[o].file == (match e.upper
                                       case ViaFile(g) => g
                                       case ViaObj(u) => s.reg.objAt[u].file
                                       case ViaCtx(c) => c)
            && t.leaks == s.leaks
  {
    UpperFileLive(s, e.upper);
    var f;
    o, f := OpenedRecord(s, e);
  }

  /** A dataset belongs to the open file that has its number, whatever it was opened through; opened
      through another file it leaks a reference on its own. */
  lemma DatasetOpened<F, O>(s: State<F, O>, e: Event<F, O>) returns (o: O)
    requires Inv(s) && Enabled(s, e) && e.OpenObj? && e.kind == Dataset && !Homeless(s, e)
    ensures Step(s, e).Done? && (e.upper.ViaObj? ==> e.upper.o in s.reg.objAt)
    ensures var t := Step(s, e).value;
            var above := match e.upper
                         case ViaFile(g) => g
                         case ViaObj(u) => s.reg.objAt[u].file
                         case ViaCtx(c) => c;
            && t.objHandles == s.objHandles + multiset{o} && o in t.reg.objAt
            && t.reg.objAt[o].file in t.reg.fileAt && t.reg.fileAt[t.reg.objAt[o].file].fileNo == e.no
            && o in t.reg.fileAt[t.reg.objAt[o].file].datasets.nodes
            && t.leaks == s.leaks + if above == t.reg.objAt[o].file then multiset{} else multiset{t.reg.objAt[o].file}
  {
    UpperFileLive(s, e.upper);
    var f;
    o, f := OpenedRecord(s, e);
    DatasetHasNumber(s, e, f);
  }

  // ---- what these come from ----

  /** The record that AddAnyObj hands out, on the lists that it leaves. */
  lemma OpenedRecord<F, O>(s: State<F, O>, e: Event<F, O>) returns (o: O, f: F)
    requires Inv(s) && Enabled(s, e) && e.OpenObj? && !Homeless(s, e)
    ensures UpperFile(s, e.upper).Done? && UpperFile(s, e.upper).value in s.reg.fileAt && s.reg.LinksLive()
    ensures f == ListedIn(s.reg, UpperFile(s, e.upper).value, e.kind, e.no, e.dummy)
    ensures Step(s, e).Done?
    ensures var t := Step(s, e).value;
            && t.objHandles == s.objHandles + multiset{o} && o in t.reg.objAt
            && t.leaks == s.leaks + Leaked(s.reg, UpperFile(s, e.upper).value, e.kind, e.no)
            && t.reg.objAt[o].kind == e.kind && t.reg.objAt[o].token == e.token && t.reg.objAt[o].file == f
            && f in t.reg.files && f in t.reg.fileAt && f in s.reg.fileAt
            && t.reg.fileAt[f].fileNo == s.reg.fileAt[f].fileNo && OnItsList(t.reg, o)
            && (o in s.reg.objAt ==> t.reg.objAt[o] == s.reg.objAt[o].(refCnt := s.reg.objAt[o].refCnt + 1))
            && (o !in s.reg.objAt ==> o == e.newObj && t.reg.objAt[o].refCnt == 1
                                      && InFront(o, e.kind, s.reg.fileAt[f], t.reg.fileAt[f]))
            && t.reg.objAt - {o} == s.reg.objAt - {o}
  {
    LinksAreLive(s.reg);
    UpperFileLive(s, e.upper);
    var upper := UpperFile(s, e.upper).value;
    f := ListedIn(s.reg, upper, e.kind, e.no, e.dummy);
    var reg;
    reg, o := ObjOpens(s, upper, e);
    OpenStep(s, e, upper, reg, o);
    AddedAny(s.reg, FileOwners(s), ObjOwners(s), upper, e, reg, o);
    Listed(reg, ObjOwners(s) + multiset{o}, o);
    assert FilesOk(reg);
  }

  lemma Listed<F, O>(r: Reg<F, O>, oo: multiset<O>, o: O)
    requires ObjsOk(r, oo) && o in r.objAt
    ensures r.objAt[o].file in r.fileAt && OnItsList(r, o)
  {
    assert ObjOk(r, oo, o);
  }

  lemma AddedAny<F, O>(r: Reg<F, O>, fo: multiset<F>, oo: multiset<O>, upper: F, e: Event<F, O>, reg: Reg<F, O>, o: O)
    requires Balanced(r, fo, oo) && r.LinksLive() && e.OpenObj? && upper in r.fileAt && OpenAddresses(r, upper, e)
    requires External(r, upper, e.kind, e.no) ==> HomeOf(r, e.no).Some?
    requires AddAnyObj(r, upper, e.kind, e.token, e.no, e.extent, e.newObj, e.dummy) == Done((reg, o))
    ensures var f := ListedIn(r, upper, e.kind, e.no, e.dummy);
            && f in r.fileAt && f in reg.fileAt && reg.fileAt[f].fileNo == r.fileAt[f].fileNo
            && Added(r, reg, f, e.kind, e.token, e.newObj, o)
            && (o !in r.objAt ==> InFront(o, e.kind, r.fileAt[f], reg.fileAt[f]))
  {
    var f := ListedIn(r, upper, e.kind, e.no, e.dummy);
    if External(r, upper, e.kind, e.no) {
      var home := HomeOf(r, e.no).value;
      assert home in r.files;
      RetainGives(r, fo, oo, home);
      AddedObj(Retain(r, home), fo + multiset{home}, oo, home, Dataset, e.token, NewStats(e.extent), e.newObj);
    } else {
      var stats := if e.kind == Dataset then NewStats(e.extent) else NO_STATS;
      AddedObj(r, fo, oo, f, e.kind, e.token, stats, e.newObj);
    }
  }

  /** From `r` to `r'` object `o` of file `f` got one more reference; its record is new if it was not
      there. */
  ghost predicate Added<F, O>(r: Reg<F, O>, r': Reg<F, O>, f: F, k: Kind, token: nat, newObj: O, o: O) {
    && o in r'.objAt && r'.objAt[o].kind == k && r'.objAt[o].token == token && r'.objAt[o].file == f
    && (o in r.objAt ==> r'.objAt[o] == r.objAt[o].(refCnt := r.objAt[o].refCnt + 1))
    && (o !in r.objAt ==> o == newObj && r'.objAt[o].refCnt == 1)
    && r'.objAt - {o} == r.objAt - {o}
  }

  lemma AddedObj<F, O>(r: Reg<F, O>, fo: multiset<F>, oo: multiset<O>, f: F, k: Kind, token: nat, stats: Stats, addr: O)
    requires Balanced(r, fo, oo) && f in r.fileAt && ObjAddress(r, f, k, token, addr)
    ensures r.LinksLive() && AddObj(r, f, k, token, stats, addr).Done?
    ensures var (r', o) := AddObj(r, f, k, token, stats, addr).value;
            && Added(r, r', f, k, token, addr, o) && f in r'.fileAt && r'.fileAt[f].fileNo == r.fileAt[f].fileNo
            && (o !in r.objAt ==> InFront(o, k, r.fileAt[f], r'.fileAt[f]))
  {
    AddObjGives(r, fo, oo, f, k, token, stats, addr);
    if addr in r.objAt { KnownIsFound(r, oo, f, k, token, addr); }
    AddedRecords(r, f, k, token, stats, addr);
    if AddObj(r, f, k, token, stats, addr).value.1 !in r.objAt { NewObjFirst(r, f, k, token, stats, addr); }
  }

  lemma AddedRecords<F, O>(r: Reg<F, O>, f: F, k: Kind, token: nat, stats: Stats, addr: O)
    requires r.LinksLive() && f in r.fileAt
    requires addr in r.objAt ==> TokenIndex(r.fileAt[f].Of(k).nodes, r.objAt, token) < |r.fileAt[f].Of(k).nodes|
    ensures AddObj(r, f, k, token, stats, addr).Done?
    ensures var (r', o) := AddObj(r, f, k, token, stats, addr).value;
            && f in r'.fileAt && r'.fileAt[f].fileNo == r.fileAt[f].fileNo && o in r'.objAt
            && (o in r.objAt ==> r'.objAt[o] == r.objAt[o].(refCnt := r.objAt[o].refCnt + 1))
            && (o !in r.objAt ==> o == addr && r'.objAt[o].refCnt == 1)
            && r'.objAt - {o} == r.objAt - {o}
  {
  }

  lemma DatasetHasNumber<F, O>(s: State<F, O>, e: Event<F, O>, f: F)
    requires Inv(s) && s.reg.LinksLive() && e.OpenObj? && e.kind == Dataset
    requires UpperFile(s, e.upper).Done? && UpperFile(s, e.upper).value in s.reg.fileAt && !Homeless(s, e)
    requires f == ListedIn(s.reg, UpperFile(s, e.upper).value, Dataset, e.no, e.dummy)
    ensures f in s.reg.fileAt && s.reg.fileAt[f].fileNo == e.no
    ensures Leaked(s.reg, UpperFile(s, e.upper).value, Dataset, e.no)
         == if UpperFile(s, e.upper).value == f then multiset{} else multiset{f}
  {
  }

  // ---- wrap contexts and missing homes ----

  /** A wrap context takes its reference on the file of what it was taken from, and changes nothing else. */
  lemma WrapCtxHolds<F, O>(s: State<F, O>, upper: Upper<F, O>) returns (f: F)
    requires Inv(s) && UpperLive(s, upper)
    ensures Step(s, GetWrapCtx(upper)).Done? && (upper.ViaObj? ==> upper.o in s.reg.objAt)
    ensures f == match upper
                 case ViaFile(g) => g
                 case ViaObj(u) => s.reg.objAt[u].file
                 case ViaCtx(c) => c
    ensures f in s.reg.fileAt
    ensures var t := Step(s, GetWrapCtx(upper)).value;
            && t == s.(reg := t.reg, ctxs := s.ctxs + multiset{f})
            && t.reg == s.reg.(fileAt := s.reg.fileAt[f := s.reg.fileAt[f].(refCnt := s.reg.fileAt[f].refCnt + 1)])
  {
    UpperFileLive(s, upper);
    GetWrapCtxSteps(s, upper);
    f := UpperFile(s, upper).value;
  }

  /** The home of a dataset is missing exactly when no file with its number is open. */
  lemma HomelessIff<F, O>(s: State<F, O>, e: Event<F, O>)
    requires Inv(s) && Enabled(s, e) && e.OpenObj?
    ensures Homeless(s, e) <==> e.kind == Dataset && forall f :: f in s.reg.fileAt ==> s.reg.fileAt[f].fileNo != e.no
  {
    LinksAreLive(s.reg);
    UpperFileLive(s, e.upper);
    var i := FileIndex(s.reg.files, s.reg.fileAt, e.no);
    if i < |s.reg.files| { assert s.reg.files[i] in s.reg.fileAt; }
    if f :| f in s.reg.fileAt && s.reg.fileAt[f].fileNo == e.no { assert f in s.reg.files; }
  }

  /** A dataset whose file is not open goes on a new record that has its number and is in no list, and
      none of the files that are open changes. */
  lemma HomelessOpened<F, O>(s: State<F, O>, e: Event<F, O>)
    requires Inv(s) && Enabled(s, e) && Homeless(s, e)
    ensures Step(s, e).Done?
    ensures var t := Step(s, e).value;
            && t.objHandles == s.objHandles + multiset{e.newObj} && e.newObj in t.reg.objAt
            && t.reg.objAt[e.newObj] == ObjRec(Dataset, e.dummy, e.token, 1, NewStats(e.extent))
            && e.dummy in t.reg.fileAt && t.reg.fileAt[e.dummy].fileNo == e.no && t.reg.fileAt[e.dummy].refCnt == 1
            && t.reg.fileAt[e.dummy].datasets.nodes == [e.newObj]
            && t.reg.files == s.reg.files && e.dummy !in t.reg.files
            && t.reg.fileAt - {e.dummy} == s.reg.fileAt && t.leaks == s.leaks
  {
    LinksAreLive(s.reg);
    UpperFileLive(s, e.upper);
    NoneOfFile(s.reg, ObjOwners(s), e.dummy);
    var upper := UpperFile(s, e.upper).value;
    HomelessAdds(s.reg, upper, e.no, e.token, NewStats(e.extent), e.newObj, e.dummy);
    OpenStep(s, e, upper, WithHomeless(s.reg, e.no, e.token, NewStats(e.extent), e.newObj, e.dummy), e.newObj);
  }

  /** A file record in no list, with the one dataset on it. */
  function WithHomeless<F(==), O(==)>(r: Reg<F, O>, no: nat, token: nat, stats: Stats, newObj: O, dummy: F): Reg<F, O> {
    r.(fileAt := r.fileAt[dummy := NewFile(no).(refCnt := 1, datasets := OpenList([newObj], 1))],
       objAt := r.objAt[newObj := ObjRec(Dataset, dummy, token, 1, stats)])
  }

  lemma HomelessAdds<F, O>(r: Reg<F, O>, upper: F, no: nat, token: nat, stats: Stats, newObj: O, dummy: F)
    requires r.LinksLive() && upper in r.fileAt && r.fileAt[upper].fileNo != no && HomeOf(r, no).None?
    requires dummy !in r.fileAt
    ensures AddDataset(r, upper, no, token, stats, newObj, dummy)
         == Done((WithHomeless(r, no, token, stats, newObj, dummy), newObj))
  {
    var held := r.(fileAt := r.fileAt[dummy := NewFile(no)]);
    assert [newObj] + [] == [newObj];
    assert Link(Retain(held, dummy), dummy, Dataset, token, stats, newObj)
        == WithHomeless(r, no, token, stats, newObj, dummy) by {
      assert Link(Retain(held, dummy), dummy, Dataset, token, stats, newObj).fileAt
          == WithHomeless(r, no, token, stats, newObj, dummy).fileAt;
    }
  }

  lemma NoneOfFile<F, O>(r: Reg<F, O>, oo: multiset<O>, f: F)
    requires ObjsOk(r, oo) && f !in r.fileAt
    ensures forall o :: o in r.objAt ==> r.objAt[o].file != f
  {
    forall o | o in r.objAt ensures r.objAt[o].file != f { assert ObjOk(r, oo, o); }
  }

  /** A new object record is in front of the list it joins. */
  lemma NewObjFirst<F, O>(r: Reg<F, O>, f: F, k: Kind, token: nat, stats: Stats, addr: O)
    requires r.LinksLive() && f in r.fileAt && AddObj(r, f, k, token, stats, addr).Done?
    requires AddObj(r, f, k, token, stats, addr).value.1 !in r.objAt
    ensures var r' := AddObj(r, f, k, token, stats, addr).value.0;
            f in r'.fileAt && InFront(addr, k, r.fileAt[f], r'.fileAt[f])
  {
  }
}
