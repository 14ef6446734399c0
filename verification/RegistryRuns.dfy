/** The connector as a state machine: every callback that touches the registry is an event, HDF5
    chooses the events. Main results are about runs of any length and any interleaving. */
module RegistryRuns {
  import opened Collections
  import opened Results
  import opened DatasetStats
  import opened RegistrySpec
  import opened RegistryInvariant

  /** The registry and who holds references into it. A handle is an H5VL_provenance_t: of a file,
      of an object, or of an asynchronous request. `leaks` records the references taken by
      _search_home_file, which no callback gives back. */
  datatype State<!F, !O> = State(reg: Reg<F, O>, ptrCnt: int,
                                 fileHandles: multiset<F>, objHandles: multiset<O>, requests: nat,
                                 ctxs: multiset<F>, holds: multiset<O>, leaks: multiset<F>)

  /** Where an open starts from; a wrap context stands behind the fake parent of wrap_object. */
  datatype Upper<F, O> = ViaFile(f: F) | ViaObj(o: O) | ViaCtx(c: F)

  datatype Event<F, O> =
    | OpenFile(no: nat, newFile: F)
    | OpenObj(upper: Upper<F, O>, kind: Kind, token: nat, no: nat, extent: Extent, newObj: O, dummy: F)
    | CloseFile(f: F)
    | CloseObj(o: O)
    | GetWrapCtx(upper: Upper<F, O>)
    | FreeWrapCtx(c: F)
    | NewRequest
    | FreeRequest
    | BeginRefresh(o: O)
    | EndRefresh(o: O)
    | Operate(o: O, op: StatOp)

  ghost function Initial<F, O>(): State<F, O> {
    State(Reg([], 0, map[], map[]), 0, multiset{}, multiset{}, 0, multiset{}, multiset{}, multiset{})
  }

  /** The file record an open or a wrap context starts from. */
  function UpperFile<F, O(==)>(s: State<F, O>, u: Upper<F, O>): Result<F> {
    match u
    case ViaFile(f) => Done(f)
    case ViaObj(o) => if o in s.reg.objAt then Done(s.reg.objAt[o].file) else Fault
    case ViaCtx(c) => Done(c)
  }

  /** What one callback does. */
  ghost function Step<F, O>(s: State<F, O>, e: Event<F, O>): Result<State<F, O>> {
    if !s.reg.LinksLive() then Fault
    else match e
      case OpenFile(no, newFile) =>
        var (reg, f) :- AddFile(s.reg, no, newFile);
        Done(s.(reg := reg, ptrCnt := s.ptrCnt + 1, fileHandles := s.fileHandles + multiset{f}))
      case OpenObj(upper, kind, token, no, extent, newObj, dummy) =>
        var f :- UpperFile(s, upper);
        var (reg, o) :- AddAnyObj(s.reg, f, kind, token, no, extent, newObj, dummy);
        Done(AfterOpen(s, reg, o, Leaked(s.reg, f, kind, no)))
      case CloseFile(f) =>
        if f !in s.reg.fileAt then Fault
        else
          var reg :- RmFile(s.reg, s.reg.fileAt[f].fileNo);
          Done(s.(reg := reg, ptrCnt := s.ptrCnt - 1, fileHandles := s.fileHandles - multiset{f}))
      case CloseObj(o) =>
        var (reg, left) :- RmObj(s.reg, o);
        if left < 0 then Fault
        else Done(s.(reg := reg, ptrCnt := s.ptrCnt - 1, objHandles := s.objHandles - multiset{o}))
      case GetWrapCtx(upper) =>
        var f :- UpperFile(s, upper);
        if f !in s.reg.fileAt then Fault
        else Done(s.(reg := Retain(s.reg, f), ctxs := s.ctxs + multiset{f}))
      case FreeWrapCtx(c) =>
        if c !in s.reg.fileAt then Fault
        else
          var reg :- RmFile(s.reg, s.reg.fileAt[c].fileNo);
          Done(s.(reg := reg, ctxs := s.ctxs - multiset{c}))
      case NewRequest => Done(s.(ptrCnt := s.ptrCnt + 1, requests := s.requests + 1))
      case FreeRequest =>
        if s.requests == 0 then Fault else Done(s.(ptrCnt := s.ptrCnt - 1, requests := s.requests - 1))
      case BeginRefresh(o) =>
        if o !in s.reg.objAt then Fault
        else Done(s.(reg := RecountedObj(s.reg, o, 1), holds := s.holds + multiset{o}))
      case EndRefresh(o) =>
        var (reg, left) :- RmObj(s.reg, o);
        if left < 0 then Fault else Done(s.(reg := reg, holds := s.holds - multiset{o}))
      case Operate(o, op) =>
        if o !in s.reg.objAt then Fault
        else Done(s.(reg := Restat(s.reg, o, op)))
  }

  /** One more handle on object `o`, and the references leaked on the way. */
  ghost function AfterOpen<F, O>(s: State<F, O>, reg: Reg<F, O>, o: O, leaked: multiset<F>): State<F, O> {
    s.(reg := reg, ptrCnt := s.ptrCnt + 1, objHandles := s.objHandles + multiset{o}, leaks := s.leaks + leaked)
  }

  function Restat<F(==), O(==)>(r: Reg<F, O>, o: O, op: StatOp): Reg<F, O>
    requires o in r.objAt
  {
    r.(objAt := r.objAt[o := r.objAt[o].(stats := Apply(r.objAt[o].stats, op))])
  }

  function AddAnyObj<F(==), O(==)>(r: Reg<F, O>, f: F, kind: Kind, token: nat, no: nat, extent: Extent,
                                   newObj: O, dummy: F): Result<(Reg<F, O>, O)>
    requires r.LinksLive()
  {
    if kind == Dataset then AddDataset(r, f, no, token, NewStats(extent), newObj, dummy)
    else AddObj(r, f, kind, token, NO_STATS, newObj)
  }

  /** The dataset being opened through `f` lives in another file. */
  predicate External<F(==), O(==)>(r: Reg<F, O>, f: F, kind: Kind, no: nat) {
    kind == Dataset && f in r.fileAt && no != r.fileAt[f].fileNo
  }

  /** The reference that opening an external dataset takes and nobody gives back. */
  ghost function Leaked<F, O>(r: Reg<F, O>, f: F, kind: Kind, no: nat): multiset<F>
    requires r.FilesLive()
  {
    if External(r, f, kind, no) && HomeOf(r, no).Some? then multiset{HomeOf(r, no).value} else multiset{}
  }

  // ---- what HDF5 may ask for ----

  ghost predicate UpperLive<F, O>(s: State<F, O>, u: Upper<F, O>) {
    match u
    case ViaFile(f) => f in s.fileHandles
    case ViaObj(o) => o in s.objHandles
    case ViaCtx(c) => c in s.ctxs
  }

  /** Each handle is used while it is live and released once; an address returned by calloc is not in
      use; file numbers are not zero. */
  ghost predicate Enabled<F, O>(s: State<F, O>, e: Event<F, O>) {
    match e
    case OpenFile(no, newFile) => no != 0 && FileAddress(s.reg, no, newFile)
    case OpenObj(upper, kind, _, no, extent, _, _) =>
      && UpperLive(s, upper) && no != 0 && (kind == Dataset ==> extent.Reported())
      && (s.reg.FilesLive() && UpperFile(s, upper).Done? && UpperFile(s, upper).value in s.reg.fileAt ==>
            OpenAddresses(s.reg, UpperFile(s, upper).value, e))
    case CloseFile(f) => f in s.fileHandles
    case CloseObj(o) => o in s.objHandles
    case GetWrapCtx(upper) => UpperLive(s, upper) && !upper.ViaCtx?
    case FreeWrapCtx(c) => c in s.ctxs
    case NewRequest => true
    case FreeRequest => s.requests > 0
    case BeginRefresh(o) => o in s.objHandles
    case EndRefresh(o) => o in s.holds
    case Operate(o, op) => (o in s.objHandles || o in s.holds) && (o in s.reg.objAt ==> Operable(s.reg.objAt[o], op))
  }

  /** The operation is one on datasets, and HDF5 keeps its word about it. */
  ghost predicate Operable<F>(rec: ObjRec<F>, op: StatOp) {
    rec.kind == Dataset && OpAllowed(rec.stats, op)
  }

  /** The file record that an object opened through `f` is listed in. */
  ghost function ListedIn<F, O>(r: Reg<F, O>, f: F, kind: Kind, no: nat, dummy: F): F
    requires r.FilesLive() && f in r.fileAt
  {
    if kind == Dataset then DatasetHome(r, f, no, dummy).0 else f
  }

  ghost predicate OpenAddresses<F, O>(r: Reg<F, O>, f: F, e: Event<F, O>)
    requires r.FilesLive() && e.OpenObj? && f in r.fileAt
  {
    && ObjAddress(r, ListedIn(r, f, e.kind, e.no, e.dummy), e.kind, e.token, e.newObj)
    && (External(r, f, e.kind, e.no) && HomeOf(r, e.no).None? ==> e.dummy !in r.fileAt)
  }

  /** The event opens a dataset of a file that is not open: _search_home_file finds nothing. */
  ghost predicate Homeless<F, O>(s: State<F, O>, e: Event<F, O>) {
    && e.OpenObj?
    && s.reg.FilesLive()
    && UpperFile(s, e.upper).Done?
    && External(s.reg, UpperFile(s, e.upper).value, e.kind, e.no)
    && HomeOf(s.reg, e.no).None?
  }

  // ---- the invariant ----

  ghost function FileOwners<F, O>(s: State<F, O>): multiset<F> {
    s.fileHandles + s.ctxs + s.leaks
  }

  ghost function ObjOwners<F, O>(s: State<F, O>): multiset<O> {
    s.objHandles + s.holds
  }

  ghost predicate Inv<F, O>(s: State<F, O>) {
    && Balanced(s.reg, FileOwners(s), ObjOwners(s))
    && s.ptrCnt == |s.fileHandles| + |s.objHandles| + s.requests
  }

  lemma InitialInv<F, O>()
    ensures Inv(Initial<F, O>())
  {
  }

  lemma UpperFileLive<F, O>(s: State<F, O>, u: Upper<F, O>)
    requires Inv(s) && UpperLive(s, u)
    ensures UpperFile(s, u).Done? && UpperFile(s, u).value in s.reg.fileAt
  {
  }

  lemma OpenFileKeeps<F, O>(s: State<F, O>, e: Event<F, O>)
    requires Inv(s) && Enabled(s, e) && e.OpenFile?
    ensures Step(s, e).Done? && Inv(Step(s, e).value)
  {
    var reg, f := FileOpens(s, e.no, e.newFile);
    OpenFileStep(s, e.no, e.newFile, reg, f);
    var t := s.(reg := reg, ptrCnt := s.ptrCnt + 1, fileHandles := s.fileHandles + multiset{f});
    assert FileOwners(t) == FileOwners(s) + multiset{f};
    InvOf(t, FileOwners(s) + multiset{f}, ObjOwners(s));
  }

  lemma FileOpens<F, O>(s: State<F, O>, no: nat, newFile: F) returns (reg: Reg<F, O>, f: F)
    requires Inv(s) && no != 0 && FileAddress(s.reg, no, newFile)
    ensures s.reg.LinksLive() && AddFile(s.reg, no, newFile) == Done((reg, f))
    ensures Balanced(reg, FileOwners(s) + multiset{f}, ObjOwners(s))
  {
    LinksAreLive(s.reg);
    AddFileGives(s.reg, FileOwners(s), ObjOwners(s), no, newFile);
    reg := AddFile(s.reg, no, newFile).value.0;
    f := AddFile(s.reg, no, newFile).value.1;
  }

  lemma OpenFileStep<F, O>(s: State<F, O>, no: nat, newFile: F, reg: Reg<F, O>, f: F)
    requires s.reg.LinksLive() && AddFile(s.reg, no, newFile) == Done((reg, f))
    ensures Step(s, OpenFile(no, newFile))
         == Done(s.(reg := reg, ptrCnt := s.ptrCnt + 1, fileHandles := s.fileHandles + multiset{f}))
  {
  }

  lemma CloseFileKeeps<F, O>(s: State<F, O>, f: F)
    requires Inv(s) && f in s.fileHandles
    ensures Step(s, CloseFile(f)).Done? && Inv(Step(s, CloseFile(f)).value)
  {
    var reg := FileReleaseSteps(s, f);
    var t := s.(reg := reg, ptrCnt := s.ptrCnt - 1, fileHandles := s.fileHandles - multiset{f});
    OneOwnerLess(s.fileHandles, s.ctxs + s.leaks, f);
    assert FileOwners(s) == s.fileHandles + (s.ctxs + s.leaks);
    assert FileOwners(t) == t.fileHandles + (s.ctxs + s.leaks);
    InvOf(t, FileOwners(s) - multiset{f}, ObjOwners(s));
  }

  lemma FreeWrapCtxKeeps<F, O>(s: State<F, O>, c: F)
    requires Inv(s) && c in s.ctxs
    ensures Step(s, FreeWrapCtx(c)).Done? && Inv(Step(s, FreeWrapCtx(c)).value)
  {
    var reg := FileReleaseSteps(s, c);
    var t := s.(reg := reg, ctxs := s.ctxs - multiset{c});
    OneOwnerLess(s.ctxs, s.fileHandles + s.leaks, c);
    assert FileOwners(s) == s.ctxs + (s.fileHandles + s.leaks);
    assert FileOwners(t) == t.ctxs + (s.fileHandles + s.leaks);
    InvOf(t, FileOwners(s) - multiset{c}, ObjOwners(s));
  }

  lemma OneOwnerLess<T>(a: multiset<T>, b: multiset<T>, x: T)
    requires x in a
    ensures (a - multiset{x}) + b == a + b - multiset{x}
  {
  }

  lemma InvOf<F, O>(s: State<F, O>, fo: multiset<F>, oo: multiset<O>)
    requires Balanced(s.reg, fo, oo) && fo == FileOwners(s) && oo == ObjOwners(s)
    requires s.ptrCnt == |s.fileHandles| + |s.objHandles| + s.requests
    ensures Inv(s)
  {
  }

  /** Giving back a reference to a file, by closing a handle or freeing a wrap context. */
  lemma FileReleaseSteps<F, O>(s: State<F, O>, f: F) returns (reg: Reg<F, O>)
    requires Inv(s) && f in FileOwners(s)
    ensures Balanced(reg, FileOwners(s) - multiset{f}, ObjOwners(s))
    ensures Step(s, CloseFile(f))
         == Done(s.(reg := reg, ptrCnt := s.ptrCnt - 1, fileHandles := s.fileHandles - multiset{f}))
    ensures Step(s, FreeWrapCtx(f)) == Done(s.(reg := reg, ctxs := s.ctxs - multiset{f}))
  {
    LinksAreLive(s.reg);
    reg := RmFileTakes(s.reg, FileOwners(s), ObjOwners(s), f);
    FileReleaseStep(s, f, reg);
  }

  lemma FileReleaseStep<F, O>(s: State<F, O>, f: F, reg: Reg<F, O>)
    requires s.reg.LinksLive() && f in s.reg.fileAt && RmFile(s.reg, s.reg.fileAt[f].fileNo) == Done(reg)
    ensures Step(s, CloseFile(f))
         == Done(s.(reg := reg, ptrCnt := s.ptrCnt - 1, fileHandles := s.fileHandles - multiset{f}))
    ensures Step(s, FreeWrapCtx(f)) == Done(s.(reg := reg, ctxs := s.ctxs - multiset{f}))
  {
  }

  lemma GetWrapCtxKeeps<F, O>(s: State<F, O>, upper: Upper<F, O>)
    requires Inv(s) && UpperLive(s, upper)
    ensures Step(s, GetWrapCtx(upper)).Done? && Inv(Step(s, GetWrapCtx(upper)).value)
  {
    UpperFileLive(s, upper);
    GetWrapCtxSteps(s, upper);
    RetainedInv(s, UpperFile(s, upper).value);
  }

  lemma GetWrapCtxSteps<F, O>(s: State<F, O>, upper: Upper<F, O>)
    requires Inv(s) && UpperFile(s, upper).Done? && UpperFile(s, upper).value in s.reg.fileAt
    ensures var f := UpperFile(s, upper).value;
            Step(s, GetWrapCtx(upper)) == Done(s.(reg := Retain(s.reg, f), ctxs := s.ctxs + multiset{f}))
  {
    LinksAreLive(s.reg);
  }

  lemma RetainedInv<F, O>(s: State<F, O>, f: F)
    requires Inv(s) && f in s.reg.fileAt
    ensures Inv(s.(reg := Retain(s.reg, f), ctxs := s.ctxs + multiset{f}))
  {
    RetainGives(s.reg, FileOwners(s), ObjOwners(s), f);
    var t := s.(reg := Retain(s.reg, f), ctxs := s.ctxs + multiset{f});
    assert FileOwners(t) == FileOwners(s) + multiset{f};
    InvOf(t, FileOwners(s) + multiset{f}, ObjOwners(s));
  }

  lemma CloseObjKeeps<F, O>(s: State<F, O>, o: O)
    requires Inv(s) && o in s.objHandles
    ensures Step(s, CloseObj(o)).Done? && Inv(Step(s, CloseObj(o)).value)
  {
    var reg, left := ReleaseIsSafe(s, o);
    CloseObjStep(s, o, reg, left);
    var t := s.(reg := reg, ptrCnt := s.ptrCnt - 1, objHandles := s.objHandles - multiset{o});
    assert ObjOwners(t) == ObjOwners(s) - multiset{o};
    InvOf(t, FileOwners(s), ObjOwners(s) - multiset{o});
  }

  lemma EndRefreshKeeps<F, O>(s: State<F, O>, o: O)
    requires Inv(s) && o in s.holds
    ensures Step(s, EndRefresh(o)).Done? && Inv(Step(s, EndRefresh(o)).value)
  {
    var reg, left := ReleaseIsSafe(s, o);
    EndRefreshStep(s, o, reg, left);
    var t := s.(reg := reg, holds := s.holds - multiset{o});
    assert ObjOwners(t) == ObjOwners(s) - multiset{o};
    InvOf(t, FileOwners(s), ObjOwners(s) - multiset{o});
  }

  lemma CloseObjStep<F, O>(s: State<F, O>, o: O, reg: Reg<F, O>, left: int)
    requires s.reg.LinksLive() && RmObj(s.reg, o) == Done((reg, left)) && left >= 0
    ensures Step(s, CloseObj(o))
         == Done(s.(reg := reg, ptrCnt := s.ptrCnt - 1, objHandles := s.objHandles - multiset{o}))
  {
  }

  lemma EndRefreshStep<F, O>(s: State<F, O>, o: O, reg: Reg<F, O>, left: int)
    requires s.reg.LinksLive() && RmObj(s.reg, o) == Done((reg, left)) && left >= 0
    ensures Step(s, EndRefresh(o)) == Done(s.(reg := reg, holds := s.holds - multiset{o}))
  {
  }

  lemma ReleaseIsSafe<F, O>(s: State<F, O>, o: O) returns (reg: Reg<F, O>, left: int)
    requires Inv(s) && o in ObjOwners(s)
    ensures s.reg.LinksLive() && RmObj(s.reg, o) == Done((reg, left)) && left >= 0
    ensures Balanced(reg, FileOwners(s), ObjOwners(s) - multiset{o})
  {
    assert ObjOk(s.reg, ObjOwners(s), o);
    RmObjTakes(s.reg, FileOwners(s), ObjOwners(s), o);
    reg, left := RmObj(s.reg, o).value.0, RmObj(s.reg, o).value.1;
  }

  lemma BeginRefreshKeeps<F, O>(s: State<F, O>, e: Event<F, O>)
    requires Inv(s) && Enabled(s, e) && e.BeginRefresh?
    ensures Step(s, e).Done? && Inv(Step(s, e).value)
  {
    LinksAreLive(s.reg);
    assert e.o in ObjOwners(s);
    assert ObjOk(s.reg, ObjOwners(s), e.o);
    var t := Step(s, e).value;
    assert ObjOwners(t) == ObjOwners(s) + multiset{e.o};
    RecountOk(s.reg, FileOwners(s), ObjOwners(s), e.o, 1, ObjOwners(t));
  }

  lemma OperateKeeps<F, O>(s: State<F, O>, e: Event<F, O>)
    requires Inv(s) && Enabled(s, e) && e.Operate?
    ensures Step(s, e).Done? && Inv(Step(s, e).value)
  {
    LinksAreLive(s.reg);
    assert e.o in ObjOwners(s);
    RestatOk(s.reg, FileOwners(s), ObjOwners(s), e.o, e.op);
  }

  lemma RestatOk<F, O>(r: Reg<F, O>, fo: multiset<F>, oo: multiset<O>, o: O, op: StatOp)
    requires Balanced(r, fo, oo) && o in r.objAt
    ensures Balanced(Restat(r, o, op), fo, oo)
  {
    RestatLists(r, o, op);
    RestatObjs(r, oo, o, op);
    assert FilesOk(Restat(r, o, op)) && CountsOk(Restat(r, o, op), fo);
  }

  lemma RestatLists<F, O>(r: Reg<F, O>, o: O, op: StatOp)
    requires ListsOk(r) && o in r.objAt
    ensures ListsOk(Restat(r, o, op))
  {
    forall f, k: Kind | f in r.fileAt ensures ListOk(Restat(r, o, op), f, k) {
      assert ListOk(r, f, k);
    }
  }

  lemma RestatObjs<F, O>(r: Reg<F, O>, oo: multiset<O>, o: O, op: StatOp)
    requires ObjsOk(r, oo) && o in r.objAt
    ensures ObjsOk(Restat(r, o, op), oo)
  {
  }

  /** An open with its home file at hand: local, or external with the home file open. */
  lemma OpenObjKeeps<F, O>(s: State<F, O>, e: Event<F, O>)
    requires Inv(s) && Enabled(s, e) && e.OpenObj? && !Homeless(s, e)
    ensures Step(s, e).Done? && Inv(Step(s, e).value)
  {
    LinksAreLive(s.reg);
    UpperFileLive(s, e.upper);
    var f := UpperFile(s, e.upper).value;
    var leaked := Leaked(s.reg, f, e.kind, e.no);
    var reg, o := ObjOpens(s, f, e);
    OpenStep(s, e, f, reg, o);
    OpenedInv(s, reg, o, leaked);
  }

  lemma ObjOpens<F, O>(s: State<F, O>, f: F, e: Event<F, O>) returns (reg: Reg<F, O>, o: O)
    requires Inv(s) && s.reg.LinksLive() && e.OpenObj? && f in s.reg.fileAt && OpenAddresses(s.reg, f, e)
    requires External(s.reg, f, e.kind, e.no) ==> HomeOf(s.reg, e.no).Some?
    ensures AddAnyObj(s.reg, f, e.kind, e.token, e.no, e.extent, e.newObj, e.dummy) == Done((reg, o))
    ensures Balanced(reg, FileOwners(s) + Leaked(s.reg, f, e.kind, e.no), ObjOwners(s) + multiset{o})
  {
    AddAnyGives(s.reg, FileOwners(s), ObjOwners(s), f, e);
    var added := AddAnyObj(s.reg, f, e.kind, e.token, e.no, e.extent, e.newObj, e.dummy).value;
    reg, o := added.0, added.1;
  }

  lemma OpenStep<F, O>(s: State<F, O>, e: Event<F, O>, f: F, reg: Reg<F, O>, o: O)
    requires s.reg.LinksLive() && e.OpenObj? && UpperFile(s, e.upper) == Done(f)
    requires AddAnyObj(s.reg, f, e.kind, e.token, e.no, e.extent, e.newObj, e.dummy) == Done((reg, o))
    ensures Step(s, e) == Done(AfterOpen(s, reg, o, Leaked(s.reg, f, e.kind, e.no)))
  {
  }

  lemma OwnersAfterOpen<F, O>(s: State<F, O>, reg: Reg<F, O>, o: O, leaked: multiset<F>)
    ensures var t := AfterOpen(s, reg, o, leaked);
            FileOwners(t) == FileOwners(s) + leaked && ObjOwners(t) == ObjOwners(s) + multiset{o}
  {
  }

  lemma OpenedInv<F, O>(s: State<F, O>, reg: Reg<F, O>, o: O, leaked: multiset<F>)
    requires s.ptrCnt == |s.fileHandles| + |s.objHandles| + s.requests
    requires Balanced(reg, FileOwners(s) + leaked, ObjOwners(s) + multiset{o})
    ensures Inv(AfterOpen(s, reg, o, leaked))
  {
    var t := AfterOpen(s, reg, o, leaked);
    OwnersAfterOpen(s, reg, o, leaked);
    InvOf(t, FileOwners(s) + leaked, ObjOwners(s) + multiset{o});
  }

  lemma AddAnyGives<F, O>(r: Reg<F, O>, fo: multiset<F>, oo: multiset<O>, f: F, e: Event<F, O>)
    requires Balanced(r, fo, oo) && r.LinksLive() && e.OpenObj? && f in r.fileAt && OpenAddresses(r, f, e)
    requires External(r, f, e.kind, e.no) ==> HomeOf(r, e.no).Some?
    ensures var added := AddAnyObj(r, f, e.kind, e.token, e.no, e.extent, e.newObj, e.dummy);
            && added.Done?
            && Balanced(added.value.0, fo + Leaked(r, f, e.kind, e.no), oo + multiset{added.value.1})
  {
    var leaked := Leaked(r, f, e.kind, e.no);
    if External(r, f, e.kind, e.no) {
      var home := HomeOf(r, e.no).value;
      assert home in r.files;
      RetainGives(r, fo, oo, home);
      AddObjGives(Retain(r, home), fo + leaked, oo, home, Dataset, e.token, NewStats(e.extent), e.newObj);
    } else {
      AddObjGives(r, fo, oo, f, e.kind, e.token, if e.kind == Dataset then NewStats(e.extent) else NO_STATS, e.newObj);
      assert fo + leaked == fo;
    }
  }

  /** An open of an external dataset whose file is not open puts it on a record in no list. */
  lemma HomelessBreaks<F, O>(s: State<F, O>, e: Event<F, O>)
    requires Inv(s) && Enabled(s, e) && Homeless(s, e)
    ensures Step(s, e).Done? && !Inv(Step(s, e).value)
  {
    LinksAreLive(s.reg);
    UpperFileLive(s, e.upper);
    var t := Step(s, e).value;
    assert e.dummy in t.reg.fileAt && e.dummy !in t.reg.files;
  }

  /** Main result: no callback that HDF5 may make fires an assertion, follows a dangling pointer or
      misses the node it removes; and the counting invariant is kept, except exactly when the
      callback opens a dataset that lives in a file which is not open. */
  lemma StepIsSafe<F, O>(s: State<F, O>, e: Event<F, O>)
    requires Inv(s) && Enabled(s, e)
    ensures Step(s, e).Done?
    ensures Inv(Step(s, e).value) <==> !Homeless(s, e)
  {
    match e
    case OpenFile(_, _) => OpenFileKeeps(s, e);
    case OpenObj(_, _, _, _, _, _, _) => if Homeless(s, e) { HomelessBreaks(s, e); } else { OpenObjKeeps(s, e); }
    case CloseFile(f) => CloseFileKeeps(s, f);
    case CloseObj(o) => CloseObjKeeps(s, o);
    case GetWrapCtx(upper) => GetWrapCtxKeeps(s, upper);
    case FreeWrapCtx(c) => FreeWrapCtxKeeps(s, c);
    case NewRequest => LinksAreLive(s.reg);
    case FreeRequest => LinksAreLive(s.reg);
    case BeginRefresh(_) => BeginRefreshKeeps(s, e);
    case EndRefresh(o) => EndRefreshKeeps(s, o);
    case Operate(_, _) => OperateKeeps(s, e);
  }

  // ---- runs ----

  ghost function Exec<F, O>(s: State<F, O>, es: seq<Event<F, O>>): Result<State<F, O>>
    decreases |es|
  {
    if es == [] then Done(s)
    else
      var t :- Step(s, es[0]);
      Exec(t, es[1..])
  }

  /** HDF5 may make these callbacks one after the other. */
  ghost predicate Possible<F, O>(s: State<F, O>, es: seq<Event<F, O>>)
    decreases |es|
  {
    es == [] || (Enabled(s, es[0]) && (Step(s, es[0]).Done? ==> Possible(Step(s, es[0]).value, es[1..])))
  }

  /** It may, and no home file is ever missing. */
  ghost predicate Legal<F, O>(s: State<F, O>, es: seq<Event<F, O>>)
    decreases |es|
  {
    es == [] ||
    (Enabled(s, es[0]) && !Homeless(s, es[0]) && (Step(s, es[0]).Done? ==> Legal(Step(s, es[0]).value, es[1..])))
  }

  /** Number of opens of datasets that live in another file than the one they are opened through. */
  ghost function ExternalOpens<F, O>(s: State<F, O>, es: seq<Event<F, O>>): nat
    decreases |es|
  {
    if es == [] || Step(s, es[0]).Fault? then 0
    else (if IsExternal(s, es[0]) then 1 else 0) + ExternalOpens(Step(s, es[0]).value, es[1..])
  }

  ghost predicate IsExternal<F, O>(s: State<F, O>, e: Event<F, O>) {
    e.OpenObj? && UpperFile(s, e.upper).Done? && External(s.reg, UpperFile(s, e.upper).value, e.kind, e.no)
  }

  /** Any run, in any order and interleaving, goes through without a fault and keeps the invariant;
      each external open leaks one file reference and nothing else does. */
  lemma {:induction false} RunIsSafe<F, O>(s: State<F, O>, es: seq<Event<F, O>>)
    requires Inv(s) && Legal(s, es)
    ensures Exec(s, es).Done? && Inv(Exec(s, es).value)
    ensures |Exec(s, es).value.leaks| == |s.leaks| + ExternalOpens(s, es)
    ensures s.leaks <= Exec(s, es).value.leaks
    decreases |es|
  {
    if es != [] {
      StepIsSafe(s, es[0]);
      var t := Step(s, es[0]).value;
      LeakCount(s, es[0]);
      RunIsSafe(t, es[1..]);
    }
  }

  lemma LeakCount<F, O>(s: State<F, O>, e: Event<F, O>)
    requires Inv(s) && Enabled(s, e) && !Homeless(s, e) && Step(s, e).Done?
    ensures |Step(s, e).value.leaks| == |s.leaks| + (if IsExternal(s, e) then 1 else 0)
    ensures s.leaks <= Step(s, e).value.leaks
  {
    LinksAreLive(s.reg);
    OnlyOpensLeak(s, e);
  }

  lemma OnlyOpensLeak<F, O>(s: State<F, O>, e: Event<F, O>)
    requires s.reg.LinksLive() && Step(s, e).Done?
    ensures e.OpenObj? ==> UpperFile(s, e.upper).Done?
    ensures Step(s, e).value.leaks
         == s.leaks + if e.OpenObj? then Leaked(s.reg, UpperFile(s, e.upper).value, e.kind, e.no) else multiset{}
  {
  }

  /** Everything HDF5 was given has been released. */
  ghost predicate AllReleased<F, O>(s: State<F, O>) {
    s.fileHandles == multiset{} && s.objHandles == multiset{} && s.requests == 0
    && s.ctxs == multiset{} && s.holds == multiset{}
  }

  /** Main result: after any run in which everything was released, in whatever order, files before
      their objects included, no object record is left, `ptr_cnt` is back at zero, each file still
      open is held only by external opens, and no file is open if and only if there were none. */
  lemma BalancedRunEndsClean<F, O>(es: seq<Event<F, O>>)
    requires Legal(Initial<F, O>(), es) && Exec(Initial<F, O>(), es).Done?
    requires AllReleased(Exec(Initial<F, O>(), es).value)
    ensures var t := Exec(Initial<F, O>(), es).value;
            && t.ptrCnt == 0
            && t.reg.objAt == map[]
            && (forall f :: f in t.reg.fileAt ==> t.reg.fileAt[f].refCnt == t.leaks[f])
            && (t.reg == Reg([], 0, map[], map[]) <==> ExternalOpens(Initial<F, O>(), es) == 0)
  {
    InitialInv<F, O>();
    RunIsSafe(Initial<F, O>(), es);
    NothingHeld(Exec(Initial<F, O>(), es).value);
  }

  lemma NoNodes<F, O>(r: Reg<F, O>, f: F, k: Kind)
    requires r.objAt == map[] && f in r.fileAt && ListOk(r, f, k)
    ensures r.fileAt[f].Of(k).nodes == []
  {
    SomeMember(r.fileAt[f].Of(k).nodes);
  }

  lemma LiveObjectsAreOwned<F, O>(r: Reg<F, O>, oo: multiset<O>)
    requires ObjsOk(r, oo)
    ensures forall o :: o in r.objAt ==> o in oo
  {
  }

  lemma NothingHeld<F, O>(t: State<F, O>)
    requires Inv(t) && AllReleased(t)
    ensures t.ptrCnt == 0 && t.reg.objAt == map[]
    ensures forall f :: f in t.reg.fileAt ==> t.reg.fileAt[f].refCnt == t.leaks[f]
    ensures t.reg == Reg([], 0, map[], map[]) <==> |t.leaks| == 0
  {
    var r := t.reg;
    assert ObjOwners(t) == multiset{} && FileOwners(t) == t.leaks;
    LiveObjectsAreOwned(r, ObjOwners(t));
    assert r.objAt.Keys == {};
    forall f | f in r.fileAt ensures r.fileAt[f].Linked() == 0 {
      NoNodes(r, f, Dataset);
      NoNodes(r, f, Group);
      NoNodes(r, f, Datatype);
      NoNodes(r, f, Attribute);
    }
    assert forall f :: f in r.fileAt <==> f in t.leaks;
    if |t.leaks| == 0 {
      assert r.fileAt.Keys == {};
      SomeMember(r.files);
    } else {
      var f :| f in t.leaks;
      assert f in r.fileAt;
    }
  }

  /** Number of opens in a run of datasets that live in the open file `f` and are opened through
      another one. */
  ghost function ExternalOpensOf<F, O>(s: State<F, O>, es: seq<Event<F, O>>, f: F): nat
    decreases |es|
  {
    if es == [] || Step(s, es[0]).Fault? then 0
    else (if IsExternalTo(s, es[0], f) then 1 else 0) + ExternalOpensOf(Step(s, es[0]).value, es[1..], f)
  }

  ghost predicate IsExternalTo<F, O>(s: State<F, O>, e: Event<F, O>, f: F) {
    IsExternal(s, e) && s.reg.FilesLive() && HomeOf(s.reg, e.no) == Some(f)
  }

  /** The references leaked on a file are the external opens of its datasets. */
  lemma {:induction false} LeaksAreOpens<F, O>(s: State<F, O>, es: seq<Event<F, O>>, f: F)
    requires Inv(s) && Legal(s, es)
    ensures Exec(s, es).Done? && Exec(s, es).value.leaks[f] == s.leaks[f] + ExternalOpensOf(s, es, f)
    decreases |es|
  {
    if es != [] {
      StepIsSafe(s, es[0]);
      LeakOf(s, es[0], f);
      LeaksAreOpens(Step(s, es[0]).value, es[1..], f);
    }
  }

  lemma LeakOf<F, O>(s: State<F, O>, e: Event<F, O>, f: F)
    requires Inv(s) && Step(s, e).Done?
    ensures Step(s, e).value.leaks[f] == s.leaks[f] + (if IsExternalTo(s, e, f) then 1 else 0)
  {
    LinksAreLive(s.reg);
    OnlyOpensLeak(s, e);
  }

  /** A file with external opens so far is open from then on, in every further run. Its count is its
      handles, contexts and linked objects and all those opens: it is never freed early and never
      balanced back to zero. */
  lemma HomeFileStaysOpen<F, O>(s: State<F, O>, es: seq<Event<F, O>>, f: F)
    requires Inv(s) && Legal(s, es) && s.leaks[f] + ExternalOpensOf(s, es, f) > 0
    ensures Exec(s, es).Done?
    ensures var t := Exec(s, es).value;
            && f in t.reg.files && f in t.reg.fileAt
            && t.reg.fileAt[f].refCnt
               == t.fileHandles[f] + t.ctxs[f] + t.reg.fileAt[f].Linked() + s.leaks[f] + ExternalOpensOf(s, es, f)
  {
    RunIsSafe(s, es);
    LeaksAreOpens(s, es, f);
    assert f in FileOwners(Exec(s, es).value);
  }

  // ---- refresh ----

  lemma AddAnyKeepsRecords<F, O>(r: Reg<F, O>, fo: multiset<F>, oo: multiset<O>, f: F, e: Event<F, O>)
    requires Balanced(r, fo, oo) && r.LinksLive() && e.OpenObj? && f in r.fileAt && OpenAddresses(r, f, e)
    ensures var added := AddAnyObj(r, f, e.kind, e.token, e.no, e.extent, e.newObj, e.dummy);
            added.Done? ==> RecordsKept(r.objAt, added.value.0.objAt)
  {
    var file := ListedIn(r, f, e.kind, e.no, e.dummy);
    var held := if e.kind == Dataset then DatasetHome(r, f, e.no, e.dummy).1 else r;
    var stats := if e.kind == Dataset then NewStats(e.extent) else NO_STATS;
    assert held.objAt == r.objAt && held.LinksLive();
    if e.newObj in r.objAt {
      assert ObjOk(r, oo, e.newObj);
      KnownIsFound(r, oo, file, e.kind, e.token, e.newObj);
      assert held.fileAt[file].Of(e.kind) == r.fileAt[file].Of(e.kind);
    }
    AddObjKeepsRecords(held, file, e.kind, e.token, stats, e.newObj);
  }

  /** A step that is not an operation on dataset `o` leaves the record of `o` as it was. */
  lemma StepKeepsRecord<F, O>(s: State<F, O>, e: Event<F, O>, o: O)
    requires Inv(s) && Enabled(s, e) && Step(s, e).Done? && o in s.reg.objAt && o in Step(s, e).value.reg.objAt
    requires e.Operate? ==> e.o != o
    ensures SameObj(s.reg.objAt[o], Step(s, e).value.reg.objAt[o])
  {
    if e.OpenObj? {
      UpperFileLive(s, e.upper);
      LinksAreLive(s.reg);
      AddAnyKeepsRecords(s.reg, FileOwners(s), ObjOwners(s), UpperFile(s, e.upper).value, e);
    } else {
      OtherStepKeepsRecord(s, e, o);
    }
  }

  lemma OtherStepKeepsRecord<F, O>(s: State<F, O>, e: Event<F, O>, o: O)
    requires s.reg.LinksLive() && !e.OpenObj?
    requires Step(s, e).Done? && o in s.reg.objAt && o in Step(s, e).value.reg.objAt
    requires e.Operate? ==> e.o != o
    ensures SameObj(s.reg.objAt[o], Step(s, e).value.reg.objAt[o])
  {
    match e
    case CloseObj(p) => RmObjKeepsRecords(s.reg, p);
    case EndRefresh(p) => RmObjKeepsRecords(s.reg, p);
    case CloseFile(f) => CloseFileKeepsObjs(s, f);
    case FreeWrapCtx(c) => FreeWrapCtxKeepsObjs(s, c);
    case OpenFile(no, newFile) => OpenFileKeepsObjs(s, no, newFile);
    case _ =>
  }

  lemma OpenFileKeepsObjs<F, O>(s: State<F, O>, no: nat, newFile: F)
    requires Step(s, OpenFile(no, newFile)).Done?
    ensures Step(s, OpenFile(no, newFile)).value.reg.objAt == s.reg.objAt
  {
  }

  lemma CloseFileKeepsObjs<F, O>(s: State<F, O>, f: F)
    requires Step(s, CloseFile(f)).Done?
    ensures Step(s, CloseFile(f)).value.reg.objAt == s.reg.objAt
  {
  }

  lemma FreeWrapCtxKeepsObjs<F, O>(s: State<F, O>, c: F)
    requires Step(s, FreeWrapCtx(c)).Done?
    ensures Step(s, FreeWrapCtx(c)).value.reg.objAt == s.reg.objAt
  {
  }

  /** The hold taken at the start of a refresh of `o` is not dropped anywhere in the run. */
  ghost predicate HeldThroughout<F, O>(s: State<F, O>, es: seq<Event<F, O>>, o: O)
    decreases |es|
  {
    && o in s.holds
    && (es == [] || (Step(s, es[0]).Done? ==> HeldThroughout(Step(s, es[0]).value, es[1..], o)))
  }

  lemma {:induction false} HeldRecordSurvives<F, O>(s: State<F, O>, es: seq<Event<F, O>>, o: O)
    requires Inv(s) && Legal(s, es) && HeldThroughout(s, es, o)
    requires forall e :: e in es && e.Operate? ==> e.o != o
    ensures o in s.reg.objAt && Exec(s, es).Done?
    ensures var t := Exec(s, es).value;
            Inv(t) && o in t.holds && o in t.reg.objAt && SameObj(s.reg.objAt[o], t.reg.objAt[o])
    decreases |es|
  {
    assert o in ObjOwners(s);
    if es != [] {
      StepIsSafe(s, es[0]);
      var t := Step(s, es[0]).value;
      HeldRecordSurvives(t, es[1..], o);
      StepKeepsRecord(s, es[0], o);
    }
  }

  /** A refresh of `o`: the hold, the callbacks HDF5 makes meanwhile, the new dimensions if the
      underlying refresh succeeded, and the release of the hold. */
  ghost function Refresh<F, O>(s: State<F, O>, o: O, inner: seq<Event<F, O>>, measured: Option<StatOp>)
    : Result<State<F, O>>
  {
    var held :- Step(s, BeginRefresh(o));
    var reopened :- Exec(held, inner);
    var updated :- if measured.Some? then Step(reopened, Operate(o, measured.value)) else Done(reopened);
    Step(updated, EndRefresh(o))
  }

  /** Main result on refresh: whatever is closed and reopened meanwhile, the refresh goes through;
      if the object has an owner afterwards, it is the same record, it counts those owners and its
      transfer counters are those from before; if it has none, its record is gone. */
  lemma RefreshKeepsStatistics<F, O>(s: State<F, O>, o: O, inner: seq<Event<F, O>>, measured: Option<StatOp>)
    requires Inv(s) && o in s.objHandles && Step(s, BeginRefresh(o)).Done?
    requires Legal(Step(s, BeginRefresh(o)).value, inner)
    requires HeldThroughout(Step(s, BeginRefresh(o)).value, inner, o)
    requires forall e :: e in inner && e.Operate? ==> e.o != o
    requires measured.Some? ==> MayMeasure(s, o, measured.value)
    ensures Refresh(s, o, inner, measured).Done? && o in s.reg.objAt
    ensures var t := Refresh(s, o, inner, measured).value;
            && Inv(t)
            && (o in t.reg.objAt <==> o in t.objHandles || o in t.holds)
            && (o in t.reg.objAt ==>
                  && t.reg.objAt[o].refCnt == t.objHandles[o] + t.holds[o]
                  && Refreshed(s.reg.objAt[o], t.reg.objAt[o], measured))
  {
    var reopened := RefreshReopens(s, o, inner);
    var updated := RefreshMeasures(reopened, o, measured);
    ReleaseHold(updated, o);
  }

  ghost predicate MayMeasure<F, O>(s: State<F, O>, o: O, op: StatOp) {
    op.Remeasure? && (o in s.reg.objAt ==> Operable(s.reg.objAt[o], op))
  }

  /** The two records are of the same object, with the same transfer counters, and the second has the
      element count and dimensions last measured. */
  ghost predicate Refreshed<F>(a: ObjRec<F>, b: ObjRec<F>, measured: Option<StatOp>) {
    && SameKey(a, b) && a.stats.read == b.stats.read && a.stats.written == b.stats.written
    && b.stats == if measured.Some? then Apply(a.stats, measured.value) else a.stats
  }

  lemma RefreshReopens<F, O>(s: State<F, O>, o: O, inner: seq<Event<F, O>>) returns (t: State<F, O>)
    requires Inv(s) && o in s.objHandles && Step(s, BeginRefresh(o)).Done?
    requires Legal(Step(s, BeginRefresh(o)).value, inner)
    requires HeldThroughout(Step(s, BeginRefresh(o)).value, inner, o)
    requires forall e :: e in inner && e.Operate? ==> e.o != o
    ensures Exec(Step(s, BeginRefresh(o)).value, inner) == Done(t)
    ensures Inv(t) && o in t.holds && o in s.reg.objAt && o in t.reg.objAt
    ensures SameObj(s.reg.objAt[o], t.reg.objAt[o])
  {
    StepIsSafe(s, BeginRefresh(o));
    var held := Step(s, BeginRefresh(o)).value;
    assert o in s.reg.objAt;
    StepKeepsRecord(s, BeginRefresh(o), o);
    HeldRecordSurvives(held, inner, o);
    t := Exec(held, inner).value;
  }

  lemma RefreshMeasures<F, O>(s: State<F, O>, o: O, measured: Option<StatOp>) returns (t: State<F, O>)
    requires Inv(s) && o in s.holds && o in s.reg.objAt
    requires measured.Some? ==> MayMeasure(s, o, measured.value)
    ensures (if measured.Some? then Step(s, Operate(o, measured.value)) else Done(s)) == Done(t)
    ensures Inv(t) && o in t.holds && o in t.reg.objAt && Refreshed(s.reg.objAt[o], t.reg.objAt[o], measured)
  {
    t := s;
    if measured.Some? {
      OperateKeeps(s, Operate(o, measured.value));
      t := Step(s, Operate(o, measured.value)).value;
      assert t == s.(reg := Restat(s.reg, o, measured.value));
    }
  }

  lemma ReleaseHold<F, O>(s: State<F, O>, o: O)
    requires Inv(s) && o in s.holds
    ensures Step(s, EndRefresh(o)).Done? && o in s.reg.objAt
    ensures var t := Step(s, EndRefresh(o)).value;
            && Inv(t)
            && (o in t.reg.objAt <==> o in t.objHandles || o in t.holds)
            && (o in t.reg.objAt ==> t.reg.objAt[o].refCnt == t.objHandles[o] + t.holds[o]
                                     && SameObj(s.reg.objAt[o], t.reg.objAt[o]))
  {
    StepIsSafe(s, EndRefresh(o));
    var t := Step(s, EndRefresh(o)).value;
    assert o in ObjOwners(s);
    LiveObjectsAreOwned(t.reg, ObjOwners(t));
    if o in ObjOwners(t) {
      assert ObjOk(t.reg, ObjOwners(t), o);
      StepKeepsRecord(s, EndRefresh(o), o);
    }
  }
}
