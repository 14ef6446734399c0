/** HDF5 as a client of the linked records: any callback that it may make on handles it was given goes
    through and keeps the invariant, so that it may go on; and what is left when it has released all. */
module RegistryClient {
  import opened Results
  import opened DatasetStats
  import opened RegistrySpec
  import opened RegistryInvariant
  import opened RegistryRuns
  import opened RegistryOpens
  import opened RegistryHeap

  /** What HDF5 asks for; the records it gets handles on are the answer. */
  datatype Request =
    | WantFile(no: nat)
    | WantObj(upper: Upper<FileInfo, ObjInfo>, kind: Kind, token: nat, no: nat, extent: Extent)
    | Other(e: Event<FileInfo, ObjInfo>)

  ghost predicate MayAsk(s: State<FileInfo, ObjInfo>, q: Request) {
    match q
    case WantFile(no) => no != 0
    case WantObj(upper, kind, _, no, extent) =>
      UpperLive(s, upper) && no != 0 && (kind == Dataset ==> extent.Reported())
    case Other(e) => !e.OpenFile? && !e.OpenObj? && Enabled(s, e)
  }

  ghost predicate Answers(e: Event<FileInfo, ObjInfo>, q: Request) {
    match q
    case WantFile(no) => e.OpenFile? && e.no == no
    case WantObj(upper, kind, token, no, extent) =>
      e.OpenObj? && e.upper == upper && e.kind == kind && e.token == token && e.no == no && e.extent == extent
    case Other(e') => e == e'
  }

  /** The assertions of add_file_node hold. */
  lemma FileAssertsHold<F, O>(r: Reg<F, O>, fo: multiset<F>, oo: multiset<O>, no: nat)
    requires Balanced(r, fo, oo)
    ensures AddFileAsserts(r, no)
  {
  }

  /** From `s` to `t` by a callback that HDF5 may make; the invariant holds again unless a home file was
      missing. */
  ghost predicate Served(s: State<FileInfo, ObjInfo>, e: Event<FileInfo, ObjInfo>, t: State<FileInfo, ObjInfo>) {
    Enabled(s, e) && Step(s, e) == Done(t) && (Inv(t) <==> !Homeless(s, e))
  }

  lemma SafelyServed(s: State<FileInfo, ObjInfo>, e: Event<FileInfo, ObjInfo>)
    requires Inv(s) && Enabled(s, e)
    ensures Step(s, e).Done? && Served(s, e, Step(s, e).value)
  {
    StepIsSafe(s, e);
  }

  /** The record that an open got a handle on, as the fields show it. A dataset belongs to the file with
      its number; any other object to the file of what it was opened through. */
  ghost predicate Opened(h: ProvHelper, obj: ObjInfo, upper: Upper<FileInfo, ObjInfo>, kind: Kind, token: nat, no: nat)
    reads h
  {
    && obj in h.Objs() && obj.kind == kind && obj.token == token && obj.fileInfo in h.Files()
    && (kind == Dataset ==> obj.fileInfo.fileNo == no)
    && (kind != Dataset ==>
          obj.fileInfo == match upper case ViaFile(g) => g case ViaObj(u) => u.fileInfo case ViaCtx(c) => c)
  }

  /** The record is at the head of the list of its kind. */
  ghost predicate IsHead(obj: ObjInfo)
    reads obj.fileInfo
  {
    match obj.kind
    case Dataset => obj.fileInfo.openedDatasets == obj
    case Group => obj.fileInfo.openedGroups == obj
    case Datatype => obj.fileInfo.openedDatatypes == obj
    case Attribute => obj.fileInfo.openedAttributes == obj
  }

  /** Any callback on live handles: it is a step that HDF5 may make, and an open returns the record that
      has the new handle. */
  method Serve(h: ProvHelper, q: Request)
    returns (file: FileInfo?, obj: ObjInfo?, ghost e: Event<FileInfo, ObjInfo>)
    requires h.Valid() && Inv(h.s) && MayAsk(h.s, q)
    modifies h, h.Files(), h.Objs()
    ensures h.Valid() && Answers(e, q) && Served(old(h.s), e, h.s)
    ensures fresh(h.Files() - old(h.Files())) && fresh(h.Objs() - old(h.Objs()))
    ensures e.OpenFile? ==> file == e.newFile && h.s.fileHandles == old(h.s.fileHandles) + multiset{e.newFile}
    ensures e.OpenObj? ==> obj == e.newObj && h.s.objHandles == old(h.s.objHandles) + multiset{e.newObj}
    ensures q.WantFile? ==> file != null && file.fileNo == q.no
    ensures q.WantObj? && Inv(h.s) ==> obj != null && Opened(h, obj, q.upper, q.kind, q.token, q.no)
    ensures q.WantObj? && Inv(h.s) && obj !in old(h.Objs()) ==> obj != null && IsHead(obj)
  {
    file, obj := null, null;
    match q
    case WantFile(no) => file, e := ServeFile(h, no);
    case WantObj(upper, kind, token, no, extent) => obj, e := ServeObj(h, upper, kind, token, no, extent);
    case Other(e') => e := e'; ServeOther(h, e');
  }

  method ServeFile(h: ProvHelper, no: nat) returns (file: FileInfo, ghost e: Event<FileInfo, ObjInfo>)
    requires h.Valid() && Inv(h.s) && no != 0
    modifies h, h.Files()
    ensures h.Valid() && e == OpenFile(no, file) && Served(old(h.s), e, h.s)
    ensures h.s.fileHandles == old(h.s.fileHandles) + multiset{file}
    ensures fresh(h.Files() - old(h.Files())) && h.Objs() == old(h.Objs()) && file.fileNo == no
  {
    FileAssertsHold(h.s.reg, FileOwners(h.s), ObjOwners(h.s), no);
    file := h.FileOpenCommon(no);
    e := OpenFile(no, file);
    SafelyServed(old(h.s), e);
    ghost var f := FileOpened(old(h.s), no, file);
    SameHandle(old(h.s.fileHandles), file, f);
    assert file.Mirrors(h.s.reg.fileAt[file]);
  }

  /** Which record a handle was added on is told by the handles. */
  lemma SameHandle<T>(handles: multiset<T>, x: T, y: T)
    requires handles + multiset{x} == handles + multiset{y}
    ensures x == y
  {
    assert (handles + multiset{x})[x] == (handles + multiset{y})[x];
  }

  method ServeObj(h: ProvHelper, upper: Upper<FileInfo, ObjInfo>, kind: Kind, token: nat, no: nat, extent: Extent)
    returns (obj: ObjInfo, ghost e: Event<FileInfo, ObjInfo>)
    requires h.Valid() && Inv(h.s) && MayAsk(h.s, WantObj(upper, kind, token, no, extent))
    modifies h, h.Files(), h.Objs()
    ensures h.Valid() && Answers(e, WantObj(upper, kind, token, no, extent)) && Served(old(h.s), e, h.s)
    ensures e.newObj == obj && h.s.objHandles == old(h.s.objHandles) + multiset{obj}
    ensures fresh(h.Files() - old(h.Files())) && fresh(h.Objs() - old(h.Objs()))
    ensures Inv(h.s) ==> Opened(h, obj, upper, kind, token, no)
    ensures Inv(h.s) && obj !in old(h.Objs()) ==> IsHead(obj)
  {
    UpperFileLive(h.s, upper);
    assert upper.ViaObj? ==> upper.o.Mirrors(h.s.reg.objAt[upper.o]);
    ghost var dummy;
    obj, dummy := h.ObjWrapUnder(upper, kind, token, no, extent);
    e := OpenObj(upper, kind, token, no, extent, obj, dummy);
    SafelyServed(old(h.s), e);
    if Inv(h.s) { ServedOpen(h, old(h.s), e); }
  }

  lemma ServedOpen(h: ProvHelper, s: State<FileInfo, ObjInfo>, e: Event<FileInfo, ObjInfo>)
    requires h.Valid() && Inv(s) && e.OpenObj? && Served(s, e, h.s) && Inv(h.s)
    requires h.s.objHandles == s.objHandles + multiset{e.newObj}
    requires e.upper.ViaObj? && e.upper.o in s.reg.objAt ==> s.reg.objAt[e.upper.o].file == e.upper.o.fileInfo
    ensures Opened(h, e.newObj, e.upper, e.kind, e.token, e.no)
    ensures e.newObj !in s.reg.objAt ==> IsHead(e.newObj)
  {
    ServedRecord(h, s, e);
    if e.kind == Dataset {
      ServedDataset(h, s, e);
    } else {
      var o := OpenedThrough(s, e);
      SameHandle(s.objHandles, e.newObj, o);
    }
  }

  lemma ServedRecord(h: ProvHelper, s: State<FileInfo, ObjInfo>, e: Event<FileInfo, ObjInfo>)
    requires h.Valid() && Inv(s) && e.OpenObj? && Served(s, e, h.s) && Inv(h.s)
    requires h.s.objHandles == s.objHandles + multiset{e.newObj}
    ensures e.newObj in h.Objs() && e.newObj.fileInfo in h.Files()
    ensures e.newObj.kind == e.kind && e.newObj.token == e.token
    ensures h.s.reg.objAt[e.newObj].file == e.newObj.fileInfo
    ensures e.newObj !in s.reg.objAt ==> IsHead(e.newObj)
  {
    var o := ObjOpened(s, e);
    SameHandle(s.objHandles, e.newObj, o);
    assert o.Mirrors(h.s.reg.objAt[o]);
    if o !in s.reg.objAt {
      FirstIsHead(h, o, s.reg.fileAt[o.fileInfo]);
    }
  }

  lemma FirstIsHead(h: ProvHelper, o: ObjInfo, before: FileRec<ObjInfo>)
    requires h.Valid() && o in h.Objs() && o.fileInfo in h.Files()
    requires InFront(o, o.kind, before, h.s.reg.fileAt[o.fileInfo])
    ensures IsHead(o)
  {
    var rec := h.s.reg.fileAt[o.fileInfo];
    assert ObjChain(o.fileInfo.Head(o.kind), rec.Of(o.kind).nodes);
    assert rec.Of(o.kind).nodes != [] && rec.Of(o.kind).nodes[0] == o;
  }

  lemma ServedDataset(h: ProvHelper, s: State<FileInfo, ObjInfo>, e: Event<FileInfo, ObjInfo>)
    requires h.Valid() && Inv(s) && e.OpenObj? && e.kind == Dataset && Served(s, e, h.s) && Inv(h.s)
    requires h.s.objHandles == s.objHandles + multiset{e.newObj}
    requires e.newObj in h.Objs() && h.s.reg.objAt[e.newObj].file == e.newObj.fileInfo
    ensures e.newObj.fileInfo.fileNo == e.no
  {
    var o := DatasetOpened(s, e);
    SameHandle(s.objHandles, e.newObj, o);
    assert o.fileInfo.Mirrors(h.s.reg.fileAt[o.fileInfo]);
  }

  /** The callbacks that open nothing. */
  method ServeOther(h: ProvHelper, e: Event<FileInfo, ObjInfo>)
    requires h.Valid() && Inv(h.s) && Enabled(h.s, e) && !e.OpenFile? && !e.OpenObj?
    modifies h, h.Files(), h.Objs()
    ensures h.Valid() && Served(old(h.s), e, h.s)
    ensures h.Files() <= old(h.Files()) && h.Objs() <= old(h.Objs())
  {
    SafelyServed(h.s, e);
    NothingNew(h.s, e);
    if e.CloseFile? || e.CloseObj? || e.GetWrapCtx? || e.FreeWrapCtx? {
      ServeRelease(h, e);
    } else {
      ServeUse(h, e);
    }
  }

  /** Only opens make records. */
  lemma NothingNew<F, O>(s: State<F, O>, e: Event<F, O>)
    requires Step(s, e).Done? && !e.OpenFile? && !e.OpenObj?
    ensures NoneAdded(s.reg, Step(s, e).value.reg)
  {
    match e
    case CloseFile(f) => RmFileAddsNone(s.reg, s.reg.fileAt[f].fileNo);
    case FreeWrapCtx(c) => RmFileAddsNone(s.reg, s.reg.fileAt[c].fileNo);
    case CloseObj(o) => RmObjAddsNone(s.reg, o);
    case EndRefresh(o) => RmObjAddsNone(s.reg, o);
    case _ =>
  }

  ghost predicate NoneAdded<F, O>(r: Reg<F, O>, r': Reg<F, O>) {
    r'.fileAt.Keys <= r.fileAt.Keys && r'.objAt.Keys <= r.objAt.Keys
  }

  lemma RmFileAddsNone<F, O>(r: Reg<F, O>, no: nat)
    requires r.FilesLive() && RmFile(r, no).Done?
    ensures NoneAdded(r, RmFile(r, no).value)
  {
  }

  lemma RmObjAddsNone<F, O>(r: Reg<F, O>, o: O)
    requires r.LinksLive() && RmObj(r, o).Done?
    ensures NoneAdded(r, RmObj(r, o).value.0)
  {
  }

  method ServeRelease(h: ProvHelper, e: Event<FileInfo, ObjInfo>)
    requires h.Valid() && (e.CloseFile? || e.CloseObj? || e.GetWrapCtx? || e.FreeWrapCtx?)
    requires Step(h.s, e).Done?
    modifies h, h.Files(), h.Objs()
    ensures h.Valid() && Step(old(h.s), e) == Done(h.s)
  {
    match e
    case CloseFile(f) => h.CloseFileHandle(f);
    case CloseObj(o) => h.CloseObjHandle(o);
    case GetWrapCtx(upper) => var _ := h.TakeWrapCtx(upper);
    case FreeWrapCtx(c) => h.DropWrapCtx(c);
  }

  method ServeUse(h: ProvHelper, e: Event<FileInfo, ObjInfo>)
    requires h.Valid() && (e.NewRequest? || e.FreeRequest? || e.BeginRefresh? || e.EndRefresh? || e.Operate?)
    requires Step(h.s, e).Done?
    requires e.Operate? ==> e.o in h.Objs() && OpAllowed(h.s.reg.objAt[e.o].stats, e.op)
    modifies h, h.Files(), h.Objs()
    ensures h.Valid() && Step(old(h.s), e) == Done(h.s)
  {
    match e
    case NewRequest => h.NewRequestHandle();
    case FreeRequest => h.FreeRequestHandle();
    case BeginRefresh(o) => h.HoldForRefresh(o);
    case EndRefresh(o) => h.ReleaseAfterRefresh(o);
    case Operate(o, op) =>
      assert o.Mirrors(h.s.reg.objAt[o]);
      h.RecordOperation(o, op);
  }

  /** When all handles are released, `ptr_cnt` is zero and the pointer to the open files is null, unless
      external opens leaked references. */
  lemma NothingLeft(h: ProvHelper)
    requires h.Valid() && Inv(h.s) && AllReleased(h.s)
    ensures h.ptrCnt == 0
    ensures h.openedFiles == null && h.openedFilesCnt == 0 <==> h.s.leaks == multiset{}
  {
    NothingHeld(h.s);
  }
}
