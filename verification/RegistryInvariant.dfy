/** The counting invariant of the registry, and that each list operation moves exactly one
    reference. Outside references are two multisets of addresses: `fo` of file records (handles,
    wrap contexts and anything else that owns a file) and `oo` of object records. */
module RegistryInvariant {
  import opened Collections
  import opened Results
  import opened DatasetStats
  import opened RegistrySpec

  /** The open files are exactly the file records, under distinct non-zero numbers. */
  ghost predicate FilesOk<F, O>(r: Reg<F, O>) {
    && r.filesCnt == |r.files|
    && Distinct(r.files)
    && (forall f :: f in r.files ==> f in r.fileAt)
    && (forall f :: f in r.fileAt ==> f in r.files)
    && (forall f :: f in r.fileAt ==> r.fileAt[f].fileNo != 0)
    && (forall f, g :: f in r.fileAt && g in r.fileAt && r.fileAt[f].fileNo == r.fileAt[g].fileNo ==> f == g)
  }

  /** List `k` of file `f`: its counter is its length and its nodes point back. */
  ghost predicate ListOk<F, O>(r: Reg<F, O>, f: F, k: Kind)
    requires f in r.fileAt
  {
    var list := r.fileAt[f].Of(k);
    && list.cnt == |list.nodes|
    && Distinct(list.nodes)
    && (forall o :: o in list.nodes ==> o in r.objAt && r.objAt[o].kind == k && r.objAt[o].file == f)
  }

  ghost predicate ListsOk<F, O>(r: Reg<F, O>) {
    forall f, k: Kind :: f in r.fileAt ==> ListOk(r, f, k)
  }

  /** Object `o` is linked from the file it points to, and counts its outside references. */
  ghost predicate ObjOk<F, O>(r: Reg<F, O>, oo: multiset<O>, o: O)
    requires o in r.objAt
  {
    var rec := r.objAt[o];
    && rec.file in r.fileAt
    && o in r.fileAt[rec.file].Of(rec.kind).nodes
    && rec.refCnt == oo[o] >= 1
  }

  /** The two records would be taken for one another by a search. */
  ghost predicate SameKey<F>(a: ObjRec<F>, b: ObjRec<F>) {
    a.kind == b.kind && a.file == b.file && a.token == b.token
  }

  ghost predicate ObjsOk<F, O>(r: Reg<F, O>, oo: multiset<O>) {
    && (forall o :: o in r.objAt ==> ObjOk(r, oo, o))
    && (forall o, p :: o in r.objAt && p in r.objAt && SameKey(r.objAt[o], r.objAt[p]) ==> o == p)
    && (forall o :: o in oo ==> o in r.objAt)
  }

  /** A file counts its outside references and every object on its lists. */
  ghost predicate CountsOk<F, O>(r: Reg<F, O>, fo: multiset<F>) {
    && (forall f :: f in r.fileAt ==> r.fileAt[f].refCnt == fo[f] + r.fileAt[f].Linked() >= 1)
    && (forall f :: f in fo ==> f in r.fileAt)
  }

  ghost predicate Balanced<F, O>(r: Reg<F, O>, fo: multiset<F>, oo: multiset<O>) {
    FilesOk(r) && ListsOk(r) && ObjsOk(r, oo) && CountsOk(r, fo)
  }

  lemma LinksAreLive<F, O>(r: Reg<F, O>)
    requires FilesOk(r) && ListsOk(r)
    ensures r.LinksLive()
  {
    forall f, k: Kind, o | f in r.fileAt && o in r.fileAt[f].Of(k).nodes ensures o in r.objAt {
      assert ListOk(r, f, k);
    }
  }

  ghost predicate SameLists<O>(a: FileRec<O>, b: FileRec<O>) {
    a.fileNo == b.fileNo
    && a.datasets == b.datasets && a.groups == b.groups && a.datatypes == b.datatypes && a.attributes == b.attributes
  }

  /** Only `refCnt` of file records differs, except that records without objects come and go. */
  ghost predicate FileStep<F, O>(r: Reg<F, O>, r': Reg<F, O>) {
    && r'.objAt == r.objAt
    && (forall f :: f in r.fileAt && f in r'.fileAt ==> SameLists(r.fileAt[f], r'.fileAt[f]))
    && (forall f :: f in r'.fileAt && f !in r.fileAt ==> SameLists(r'.fileAt[f], NewFile(r'.fileAt[f].fileNo)))
    && (forall f :: f in r.fileAt && f !in r'.fileAt ==> r.fileAt[f].Linked() == 0)
  }

  lemma FileStepLists<F, O>(r: Reg<F, O>, r': Reg<F, O>)
    requires FileStep(r, r') && ListsOk(r)
    ensures ListsOk(r')
  {
    forall f, k: Kind | f in r'.fileAt ensures ListOk(r', f, k) {
      if f in r.fileAt {
        assert SameLists(r.fileAt[f], r'.fileAt[f]);
        assert ListOk(r, f, k);
      }
    }
  }

  lemma FileStepObjs<F, O>(r: Reg<F, O>, r': Reg<F, O>, oo: multiset<O>)
    requires FileStep(r, r') && ListsOk(r) && ObjsOk(r, oo)
    ensures ObjsOk(r', oo)
  {
  }

  /** `ref_cnt++` gives out one reference. */
  lemma RetainGives<F, O>(r: Reg<F, O>, fo: multiset<F>, oo: multiset<O>, f: F)
    requires Balanced(r, fo, oo) && f in r.fileAt
    ensures Balanced(Retain(r, f), fo + multiset{f}, oo)
  {
    var r' := Retain(r, f);
    FileStepLists(r, r');
    FileStepObjs(r, r', oo);
    RetainCounts(r, fo, f);
  }

  lemma RetainCounts<F, O>(r: Reg<F, O>, fo: multiset<F>, f: F)
    requires FilesOk(r) && CountsOk(r, fo) && f in r.fileAt
    ensures FilesOk(Retain(r, f)) && CountsOk(Retain(r, f), fo + multiset{f})
  {
  }

  /** The search by number finds the one record that has it. */
  lemma FileIndexExact<F, O>(r: Reg<F, O>, f: F)
    requires FilesOk(r) && f in r.fileAt
    ensures var i := FileIndex(r.files, r.fileAt, r.fileAt[f].fileNo); i < |r.files| && r.files[i] == f
  {
  }

  lemma WithoutMembers<T>(s: seq<T>, i: nat)
    requires i < |s| && Distinct(s)
    ensures Distinct(Without(s, i))
    ensures forall x :: x in Without(s, i) ==> x in s && x != s[i]
    ensures forall x :: x in s && x != s[i] ==> x in Without(s, i)
  {
  }

  /** `addr` is not in use, or is the record that a search for the number finds. */
  ghost predicate FileAddress<F, O>(r: Reg<F, O>, no: nat, addr: F) {
    addr !in r.fileAt || r.fileAt[addr].fileNo == no
  }

  /** add_file_node gives out one reference to the file with that number. */
  lemma AddFileGives<F, O>(r: Reg<F, O>, fo: multiset<F>, oo: multiset<O>, no: nat, addr: F)
    requires Balanced(r, fo, oo) && no != 0 && FileAddress(r, no, addr)
    ensures AddFileAsserts(r, no) && AddFile(r, no, addr).Done?
    ensures var (r', f) := AddFile(r, no, addr).value;
            && Balanced(r', fo + multiset{f}, oo) && f in r'.fileAt && r'.fileAt[f].fileNo == no
            && r'.objAt == r.objAt
  {
    var i := FileIndex(r.files, r.fileAt, no);
    if i < |r.files| {
      RetainGives(r, fo, oo, r.files[i]);
    } else {
      forall g | g in r.fileAt ensures r.fileAt[g].fileNo != no { assert g in r.files; }
      assert addr !in r.fileAt;
      NewFileBalanced(r, fo, oo, no, addr);
    }
  }

  lemma NewFileBalanced<F, O>(r: Reg<F, O>, fo: multiset<F>, oo: multiset<O>, no: nat, addr: F)
    requires Balanced(r, fo, oo) && no != 0 && addr !in r.fileAt
    requires forall g :: g in r.fileAt ==> r.fileAt[g].fileNo != no
    ensures Balanced(Reg([addr] + r.files, r.filesCnt + 1, r.fileAt[addr := NewFile(no).(refCnt := 1)], r.objAt),
                     fo + multiset{addr}, oo)
  {
    var r' := Reg([addr] + r.files, r.filesCnt + 1, r.fileAt[addr := NewFile(no).(refCnt := 1)], r.objAt);
    FileStepLists(r, r');
    FileStepObjs(r, r', oo);
    NewFileOk(r, r', no, addr);
    assert CountsOk(r', fo + multiset{addr});
  }

  lemma NewFileOk<F, O>(r: Reg<F, O>, r': Reg<F, O>, no: nat, addr: F)
    requires FilesOk(r) && no != 0 && addr !in r.fileAt
    requires forall g :: g in r.fileAt ==> r.fileAt[g].fileNo != no
    requires r'.files == [addr] + r.files && r'.filesCnt == r.filesCnt + 1
    requires r'.fileAt == r.fileAt[addr := NewFile(no).(refCnt := 1)]
    ensures FilesOk(r')
  {
  }

  ghost predicate ListsEmpty<O>(rec: FileRec<O>) {
    rec.datasets.cnt == 0 && rec.groups.cnt == 0 && rec.datatypes.cnt == 0 && rec.attributes.cnt == 0
  }

  /** The sanity checks of rm_file_node: the last reference leaves no object behind. */
  lemma LastReferenceIsAlone<F, O>(r: Reg<F, O>, fo: multiset<F>, f: F)
    requires ListsOk(r) && CountsOk(r, fo) && f in fo && r.fileAt[f].refCnt == 1
    ensures ListsEmpty(r.fileAt[f]) && r.fileAt[f].Linked() == 0 && fo[f] == 1
  {
    assert ListOk(r, f, Dataset) && ListOk(r, f, Group) && ListOk(r, f, Datatype) && ListOk(r, f, Attribute);
  }

  lemma FreeFileOk<F, O>(r: Reg<F, O>, f: F, i: nat)
    requires FilesOk(r) && i < |r.files| && r.files[i] == f
    ensures FilesOk(Reg(Without(r.files, i), r.filesCnt - 1, r.fileAt - {f}, r.objAt))
  {
  }

  /** What rm_file_node leaves of the file records when it is given the number of `f`. */
  ghost function FilesAfter<F, O>(r: Reg<F, O>, f: F): map<F, FileRec<O>>
    requires f in r.fileAt
  {
    if r.fileAt[f].refCnt == 1 then r.fileAt - {f}
    else r.fileAt[f := r.fileAt[f].(refCnt := r.fileAt[f].refCnt - 1)]
  }

  /** The search of rm_file_node meets `f`. */
  lemma RmFileValue<F, O>(r: Reg<F, O>, f: F) returns (i: nat)
    requires FilesOk(r) && f in r.fileAt && (r.fileAt[f].refCnt == 1 ==> ListsEmpty(r.fileAt[f]))
    ensures i < |r.files| && r.files[i] == f
    ensures RmFile(r, r.fileAt[f].fileNo)
         == Done(if r.fileAt[f].refCnt == 1 then Reg(Without(r.files, i), r.filesCnt - 1, r.fileAt - {f}, r.objAt)
                 else Recounted(r, f, -1))
  {
    FileIndexExact(r, f);
    i := FileIndex(r.files, r.fileAt, r.fileAt[f].fileNo);
    assert Recounted(r, f, -1).fileAt - {f} == r.fileAt - {f};
  }

  lemma RmFileResult<F, O>(r: Reg<F, O>, fo: multiset<F>, f: F) returns (r': Reg<F, O>)
    requires FilesOk(r) && ListsOk(r) && CountsOk(r, fo) && f in fo
    ensures RmFile(r, r.fileAt[f].fileNo) == Done(r')
    ensures FilesOk(r') && r'.objAt == r.objAt && r'.fileAt == FilesAfter(r, f)
  {
    if r.fileAt[f].refCnt == 1 {
      LastReferenceIsAlone(r, fo, f);
      r' := LastRmFile(r, f);
    } else {
      OtherRmFile(r, f);
      r' := Recounted(r, f, -1);
    }
  }

  lemma LastRmFile<F, O>(r: Reg<F, O>, f: F) returns (r': Reg<F, O>)
    requires FilesOk(r) && f in r.fileAt && r.fileAt[f].refCnt == 1 && ListsEmpty(r.fileAt[f])
    ensures RmFile(r, r.fileAt[f].fileNo) == Done(r')
    ensures FilesOk(r') && r'.objAt == r.objAt && r'.fileAt == r.fileAt - {f}
  {
    var i := RmFileValue(r, f);
    FreeFileOk(r, f, i);
    r' := Reg(Without(r.files, i), r.filesCnt - 1, r.fileAt - {f}, r.objAt);
  }

  lemma OtherRmFile<F, O>(r: Reg<F, O>, f: F)
    requires FilesOk(r) && f in r.fileAt && r.fileAt[f].refCnt != 1
    ensures RmFile(r, r.fileAt[f].fileNo) == Done(Recounted(r, f, -1)) && FilesOk(Recounted(r, f, -1))
  {
    var _ := RmFileValue(r, f);
    RecountedFilesOk(r, f, -1);
  }

  lemma RecountedFilesOk<F, O>(r: Reg<F, O>, f: F, d: int)
    requires FilesOk(r) && f in r.fileAt
    ensures FilesOk(Recounted(r, f, d))
  {
  }

  /** rm_file_node takes back one reference, and the record with the last one. */
  lemma RmFileTakes<F, O>(r: Reg<F, O>, fo: multiset<F>, oo: multiset<O>, f: F) returns (r': Reg<F, O>)
    requires Balanced(r, fo, oo) && f in fo
    ensures RmFile(r, r.fileAt[f].fileNo) == Done(r')
    ensures Balanced(r', fo - multiset{f}, oo) && r'.objAt == r.objAt && r'.fileAt == FilesAfter(r, f)
  {
    r' := RmFileResult(r, fo, f);
    FilesAfterBalanced(r, r', fo, oo, f);
  }

  lemma FilesAfterBalanced<F, O>(r: Reg<F, O>, r': Reg<F, O>, fo: multiset<F>, oo: multiset<O>, f: F)
    requires Balanced(r, fo, oo) && f in fo
    requires FilesOk(r') && r'.objAt == r.objAt && r'.fileAt == FilesAfter(r, f)
    ensures Balanced(r', fo - multiset{f}, oo)
  {
    if r.fileAt[f].refCnt == 1 { LastReferenceIsAlone(r, fo, f); }
    CountsAfter(r, r', fo, f);
    FilesAfterStep(r, r', f);
    FileStepLists(r, r');
    FileStepObjs(r, r', oo);
  }

  lemma FilesAfterStep<F, O>(r: Reg<F, O>, r': Reg<F, O>, f: F)
    requires f in r.fileAt && r'.objAt == r.objAt && r'.fileAt == FilesAfter(r, f)
    requires r.fileAt[f].refCnt == 1 ==> r.fileAt[f].Linked() == 0
    ensures FileStep(r, r')
  {
  }

  lemma CountsAfter<F, O>(r: Reg<F, O>, r': Reg<F, O>, fo: multiset<F>, f: F)
    requires CountsOk(r, fo) && f in fo && r'.fileAt == FilesAfter(r, f)
    requires r.fileAt[f].refCnt == 1 ==> fo[f] == 1
    ensures CountsOk(r', fo - multiset{f})
  {
  }

  /** A search by token meets `o` and nothing before it, whatever the counts in the records. */
  lemma TokenIndexExact<F, O>(r: Reg<F, O>, oo: multiset<O>, o: O, at: map<O, ObjRec<F>>)
    requires ListsOk(r) && ObjsOk(r, oo) && o in r.objAt && at.Keys == r.objAt.Keys
    requires forall p :: p in at ==> at[p].token == r.objAt[p].token
    requires ObjOk(r, oo, o)
    ensures var nodes := r.fileAt[r.objAt[o].file].Of(r.objAt[o].kind).nodes;
            && (forall p :: p in nodes ==> p in at)
            && var i := TokenIndex(nodes, at, r.objAt[o].token);
               i < |nodes| && nodes[i] == o
  {
    var f, k := r.objAt[o].file, r.objAt[o].kind;
    assert ListOk(r, f, k);
    var nodes := r.fileAt[f].Of(k).nodes;
    var i := TokenIndex(nodes, at, r.objAt[o].token);
    if i < |nodes| {
      assert nodes[i] in nodes;
      assert SameKey(r.objAt[nodes[i]], r.objAt[o]);
    }
  }

  /** One more or one fewer outside reference to an object that keeps at least one. */
  lemma RecountOk<F, O>(r: Reg<F, O>, fo: multiset<F>, oo: multiset<O>, o: O, d: int, oo': multiset<O>)
    requires Balanced(r, fo, oo) && o in r.objAt
    requires oo[o] + d >= 1 && oo' == oo[o := oo[o] + d]
    ensures Balanced(RecountedObj(r, o, d), fo, oo')
  {
    var r' := RecountedObj(r, o, d);
    RecountLists(r, o, d);
    RecountObjs(r, oo, o, d, oo');
    assert FilesOk(r') && CountsOk(r', fo);
  }

  lemma RecountLists<F, O>(r: Reg<F, O>, o: O, d: int)
    requires ListsOk(r) && o in r.objAt
    ensures ListsOk(RecountedObj(r, o, d))
  {
    var r' := RecountedObj(r, o, d);
    forall f, k: Kind | f in r'.fileAt ensures ListOk(r', f, k) {
      assert ListOk(r, f, k);
    }
  }

  lemma RecountObjs<F, O>(r: Reg<F, O>, oo: multiset<O>, o: O, d: int, oo': multiset<O>)
    requires ObjsOk(r, oo) && o in r.objAt
    requires oo[o] + d >= 1 && oo' == oo[o := oo[o] + d]
    ensures ObjsOk(RecountedObj(r, o, d), oo')
  {
  }

  /** Linking a new object takes over one outside reference to its file. */
  lemma LinkTakes<F, O>(r: Reg<F, O>, fo: multiset<F>, oo: multiset<O>, f: F, k: Kind, token: nat,
                        stats: Stats, addr: O)
    requires Balanced(r, fo, oo) && f in fo && addr !in r.objAt
    requires forall o :: o in r.objAt && r.objAt[o].kind == k && r.objAt[o].file == f ==> r.objAt[o].token != token
    ensures Balanced(Link(r, f, k, token, stats, addr), fo - multiset{f}, oo + multiset{addr})
  {
    LinkLists(r, f, k, token, stats, addr);
    LinkObjs(r, oo, f, k, token, stats, addr);
    LinkFiles(r, f, k, token, stats, addr);
    LinkCounts(r, fo, f, k, token, stats, addr);
  }

  lemma LinkFiles<F, O>(r: Reg<F, O>, f: F, k: Kind, token: nat, stats: Stats, addr: O)
    requires FilesOk(r) && f in r.fileAt
    ensures FilesOk(Link(r, f, k, token, stats, addr))
  {
  }

  lemma LinkCounts<F, O>(r: Reg<F, O>, fo: multiset<F>, f: F, k: Kind, token: nat, stats: Stats, addr: O)
    requires CountsOk(r, fo) && f in fo
    ensures CountsOk(Link(r, f, k, token, stats, addr), fo - multiset{f})
  {
  }

  lemma LinkObjs<F, O>(r: Reg<F, O>, oo: multiset<O>, f: F, k: Kind, token: nat, stats: Stats, addr: O)
    requires ObjsOk(r, oo) && f in r.fileAt && addr !in r.objAt
    requires forall o :: o in r.objAt && r.objAt[o].kind == k && r.objAt[o].file == f ==> r.objAt[o].token != token
    ensures ObjsOk(Link(r, f, k, token, stats, addr), oo + multiset{addr})
  {
    var r' := Link(r, f, k, token, stats, addr);
    var oo' := oo + multiset{addr};
    assert oo[addr] == 0;
    assert forall j: Kind :: j != k ==> r'.fileAt[f].Of(j) == r.fileAt[f].Of(j);
    forall p | p in r'.objAt ensures ObjOk(r', oo', p) {
      if p != addr { assert ObjOk(r, oo, p); }
    }
  }

  lemma LinkLists<F, O>(r: Reg<F, O>, f: F, k: Kind, token: nat, stats: Stats, addr: O)
    requires ListsOk(r) && f in r.fileAt && addr !in r.objAt
    ensures ListsOk(Link(r, f, k, token, stats, addr))
  {
    var r' := Link(r, f, k, token, stats, addr);
    forall g, j: Kind | g in r'.fileAt ensures ListOk(r', g, j) {
      assert ListOk(r, g, j);
      if g == f && j == k {
        var nodes, nodes' := r.fileAt[f].Of(k).nodes, r'.fileAt[f].Of(k).nodes;
        assert forall i :: 0 < i < |nodes'| ==> nodes'[i] == nodes[i - 1];
      }
    }
  }

  /** `addr` is not in use, or is the record that a search for the token finds. */
  ghost predicate ObjAddress<F, O>(r: Reg<F, O>, f: F, k: Kind, token: nat, addr: O) {
    addr !in r.objAt || (r.objAt[addr].kind == k && r.objAt[addr].file == f && r.objAt[addr].token == token)
  }

  /** add_*_node gives out one reference to the object with that token. */
  lemma AddObjGives<F, O>(r: Reg<F, O>, fo: multiset<F>, oo: multiset<O>, f: F, k: Kind, token: nat,
                          stats: Stats, addr: O)
    requires Balanced(r, fo, oo) && f in r.fileAt && ObjAddress(r, f, k, token, addr)
    ensures r.LinksLive() && AddObj(r, f, k, token, stats, addr).Done?
    ensures var (r', o) := AddObj(r, f, k, token, stats, addr).value;
            && Balanced(r', fo, oo + multiset{o})
            && o in r'.objAt && r'.objAt[o].kind == k && r'.objAt[o].file == f && r'.objAt[o].token == token
  {
    LinksAreLive(r);
    if TokenIndex(r.fileAt[f].Of(k).nodes, r.objAt, token) < |r.fileAt[f].Of(k).nodes| {
      AddObjKnown(r, fo, oo, f, k, token, stats, addr);
    } else {
      AddObjNew(r, fo, oo, f, k, token, stats, addr);
    }
  }

  /** A record with the token is found by the search. */
  lemma KnownIsFound<F, O>(r: Reg<F, O>, oo: multiset<O>, f: F, k: Kind, token: nat, addr: O)
    requires r.LinksLive() && ObjsOk(r, oo) && f in r.fileAt
    requires addr in r.objAt && ObjAddress(r, f, k, token, addr)
    ensures TokenIndex(r.fileAt[f].Of(k).nodes, r.objAt, token) < |r.fileAt[f].Of(k).nodes|
  {
  }

  lemma AddObjKnown<F, O>(r: Reg<F, O>, fo: multiset<F>, oo: multiset<O>, f: F, k: Kind, token: nat,
                          stats: Stats, addr: O)
    requires Balanced(r, fo, oo) && f in r.fileAt && r.LinksLive()
    requires TokenIndex(r.fileAt[f].Of(k).nodes, r.objAt, token) < |r.fileAt[f].Of(k).nodes|
    ensures AddObj(r, f, k, token, stats, addr).Done?
    ensures var (r', o) := AddObj(r, f, k, token, stats, addr).value;
            && Balanced(r', fo, oo + multiset{o})
            && o in r'.objAt && r'.objAt[o].kind == k && r'.objAt[o].file == f && r'.objAt[o].token == token
  {
    var nodes := r.fileAt[f].Of(k).nodes;
    var o := nodes[TokenIndex(nodes, r.objAt, token)];
    ListedNode(r, oo, f, k, o);
    RecountOk(r, fo, oo, o, 1, oo + multiset{o});
  }

  lemma ListedNode<F, O>(r: Reg<F, O>, oo: multiset<O>, f: F, k: Kind, o: O)
    requires ListsOk(r) && ObjsOk(r, oo) && f in r.fileAt && o in r.fileAt[f].Of(k).nodes
    ensures o in r.objAt && r.objAt[o].kind == k && r.objAt[o].file == f && ObjOk(r, oo, o)
  {
    assert ListOk(r, f, k);
  }

  lemma AddObjNew<F, O>(r: Reg<F, O>, fo: multiset<F>, oo: multiset<O>, f: F, k: Kind, token: nat,
                        stats: Stats, addr: O)
    requires Balanced(r, fo, oo) && f in r.fileAt && ObjAddress(r, f, k, token, addr) && r.LinksLive()
    requires TokenIndex(r.fileAt[f].Of(k).nodes, r.objAt, token) == |r.fileAt[f].Of(k).nodes|
    ensures Balanced(Link(Retain(r, f), f, k, token, stats, addr), fo, oo + multiset{addr})
  {
    TokenIsNew(r, oo, f, k, token);
    RetainGives(r, fo, oo, f);
    LinkUsesUp(Retain(r, f), fo, oo, f, k, token, stats, addr);
  }

  lemma LinkUsesUp<F, O>(r: Reg<F, O>, fo: multiset<F>, oo: multiset<O>, f: F, k: Kind, token: nat,
                         stats: Stats, addr: O)
    requires Balanced(r, fo + multiset{f}, oo) && addr !in r.objAt && f in r.fileAt
    requires forall o :: o in r.objAt && r.objAt[o].kind == k && r.objAt[o].file == f ==> r.objAt[o].token != token
    ensures Balanced(Link(r, f, k, token, stats, addr), fo, oo + multiset{addr})
  {
    LinkTakes(r, fo + multiset{f}, oo, f, k, token, stats, addr);
    assert fo + multiset{f} - multiset{f} == fo;
  }

  lemma TokenIsNew<F, O>(r: Reg<F, O>, oo: multiset<O>, f: F, k: Kind, token: nat)
    requires ObjsOk(r, oo) && f in r.fileAt && r.LinksLive()
    requires TokenIndex(r.fileAt[f].Of(k).nodes, r.objAt, token) == |r.fileAt[f].Of(k).nodes|
    ensures forall o :: o in r.objAt && r.objAt[o].kind == k && r.objAt[o].file == f ==> r.objAt[o].token != token
  {
  }

  /** Unlinking an object gives its reference to its file back to the caller. */
  lemma UnlinkGives<F, O>(r: Reg<F, O>, fo: multiset<F>, oo: multiset<O>, o: O, i: nat)
    requires Balanced(r, fo, oo) && oo[o] == 1
    requires o in r.objAt && ObjOk(r, oo, o)
    requires i < |r.fileAt[r.objAt[o].file].Of(r.objAt[o].kind).nodes|
    requires r.fileAt[r.objAt[o].file].Of(r.objAt[o].kind).nodes[i] == o
    ensures Balanced(Unlink(r, r.objAt[o].file, r.objAt[o].kind, i), fo + multiset{r.objAt[o].file}, oo - multiset{o})
  {
    UnlinkLists(r, o, i);
    UnlinkObjs(r, oo, o, i);
    UnlinkFiles(r, r.objAt[o].file, r.objAt[o].kind, i);
    UnlinkCounts(r, fo, r.objAt[o].file, r.objAt[o].kind, i);
  }

  lemma UnlinkFiles<F, O>(r: Reg<F, O>, f: F, k: Kind, i: nat)
    requires FilesOk(r) && f in r.fileAt && i < |r.fileAt[f].Of(k).nodes|
    ensures FilesOk(Unlink(r, f, k, i))
  {
  }

  lemma UnlinkCounts<F, O>(r: Reg<F, O>, fo: multiset<F>, f: F, k: Kind, i: nat)
    requires CountsOk(r, fo) && f in r.fileAt && i < |r.fileAt[f].Of(k).nodes|
    ensures CountsOk(Unlink(r, f, k, i), fo + multiset{f})
  {
  }

  lemma UnlinkObjs<F, O>(r: Reg<F, O>, oo: multiset<O>, o: O, i: nat)
    requires ListsOk(r) && ObjsOk(r, oo) && oo[o] == 1
    requires o in r.objAt && ObjOk(r, oo, o)
    requires i < |r.fileAt[r.objAt[o].file].Of(r.objAt[o].kind).nodes|
    requires r.fileAt[r.objAt[o].file].Of(r.objAt[o].kind).nodes[i] == o
    ensures ObjsOk(Unlink(r, r.objAt[o].file, r.objAt[o].kind, i), oo - multiset{o})
  {
  }

  lemma UnlinkLists<F, O>(r: Reg<F, O>, o: O, i: nat)
    requires ListsOk(r) && o in r.objAt && r.objAt[o].file in r.fileAt
    requires i < |r.fileAt[r.objAt[o].file].Of(r.objAt[o].kind).nodes|
    requires r.fileAt[r.objAt[o].file].Of(r.objAt[o].kind).nodes[i] == o
    ensures ListsOk(Unlink(r, r.objAt[o].file, r.objAt[o].kind, i))
  {
    var f, k := r.objAt[o].file, r.objAt[o].kind;
    var r' := Unlink(r, f, k, i);
    assert ListOk(r, f, k);
    WithoutMembers(r.fileAt[f].Of(k).nodes, i);
    forall g, j: Kind | g in r'.fileAt ensures ListOk(r', g, j) {
      assert ListOk(r, g, j);
    }
  }

  /** rm_*_node takes back one reference; with the last one it unlinks and frees exactly the node
      it was given and gives up the node's hold on its file. The node is always found: the result
      is never -1. */
  lemma RmObjTakes<F, O>(r: Reg<F, O>, fo: multiset<F>, oo: multiset<O>, o: O)
    requires Balanced(r, fo, oo) && o in oo
    ensures r.LinksLive() && RmObj(r, o).Done?
    ensures var (r', left) := RmObj(r, o).value;
            && left == r.objAt[o].refCnt - 1 && Balanced(r', fo, oo - multiset{o})
            && r'.objAt == (if left > 0 then r.objAt[o := r.objAt[o].(refCnt := left)] else r.objAt - {o})
  {
    LinksAreLive(r);
    assert ObjOk(r, oo, o);
    if oo[o] == 1 {
      RmObjLast(r, fo, oo, o);
    } else {
      RecountOk(r, fo, oo, o, -1, oo - multiset{o});
    }
  }

  lemma RmObjLast<F, O>(r: Reg<F, O>, fo: multiset<F>, oo: multiset<O>, o: O)
    requires Balanced(r, fo, oo) && oo[o] == 1 && r.LinksLive()
    ensures RmObj(r, o).Done?
    ensures var (r', left) := RmObj(r, o).value;
            && left == 0 && Balanced(r', fo, oo - multiset{o}) && r'.objAt == r.objAt - {o}
  {
    assert o in oo;
    assert ObjOk(r, oo, o);
    var i := RmObjUnlinks(r, oo, o);
    UnlinkThenRmFile(r, fo, oo, o, i);
  }

  lemma UnlinkThenRmFile<F, O>(r: Reg<F, O>, fo: multiset<F>, oo: multiset<O>, o: O, i: nat)
    requires Balanced(r, fo, oo) && oo[o] == 1
    requires o in r.objAt && ObjOk(r, oo, o)
    requires i < |r.fileAt[r.objAt[o].file].Of(r.objAt[o].kind).nodes|
    requires r.fileAt[r.objAt[o].file].Of(r.objAt[o].kind).nodes[i] == o
    ensures var unlinked := Unlink(r, r.objAt[o].file, r.objAt[o].kind, i);
            && unlinked.FilesLive()
            && var closed := RmFile(unlinked, r.fileAt[r.objAt[o].file].fileNo);
               closed.Done? && Balanced(closed.value, fo, oo - multiset{o}) && closed.value.objAt == r.objAt - {o}
               && closed.value.fileAt == FilesAfter(unlinked, r.objAt[o].file)
  {
    var f := r.objAt[o].file;
    UnlinkGives(r, fo, oo, o, i);
    GiveUpFile(Unlink(r, f, r.objAt[o].kind, i), fo, oo - multiset{o}, f, r.fileAt[f].fileNo);
  }

  lemma GiveUpFile<F, O>(r: Reg<F, O>, fo: multiset<F>, oo: multiset<O>, f: F, no: nat)
    requires Balanced(r, fo + multiset{f}, oo) && f in r.fileAt && no == r.fileAt[f].fileNo
    ensures r.FilesLive() && RmFile(r, no).Done?
    ensures Balanced(RmFile(r, no).value, fo, oo) && RmFile(r, no).value.objAt == r.objAt
    ensures RmFile(r, no).value.fileAt == FilesAfter(r, f)
  {
    var _ := RmFileTakes(r, fo + multiset{f}, oo, f);
    assert fo + multiset{f} - multiset{f} == fo;
  }

  /** With the last reference, rm_*_node is: unlink the node passed in, at its place in its list,
      then rm_file_node with the number of its file. */
  lemma RmObjUnlinks<F, O>(r: Reg<F, O>, oo: multiset<O>, o: O) returns (i: nat)
    requires ListsOk(r) && ObjsOk(r, oo) && r.LinksLive() && oo[o] == 1
    requires o in r.objAt && ObjOk(r, oo, o)
    ensures i < |r.fileAt[r.objAt[o].file].Of(r.objAt[o].kind).nodes|
    ensures r.fileAt[r.objAt[o].file].Of(r.objAt[o].kind).nodes[i] == o
    ensures var closed := RmFile(Unlink(r, r.objAt[o].file, r.objAt[o].kind, i), r.fileAt[r.objAt[o].file].fileNo);
            RmObj(r, o) == if closed.Done? then Done((closed.value, 0)) else Fault
  {
    var rec := r.objAt[o].(refCnt := 0);
    var dropped := r.(objAt := r.objAt[o := rec]);
    var f, k := rec.file, rec.kind;
    TokenIndexExact(r, oo, o, dropped.objAt);
    assert ListOk(r, f, k);
    i := TokenIndex(r.fileAt[f].Of(k).nodes, dropped.objAt, rec.token);
    assert Unlink(dropped, f, k, i) == Unlink(r, f, k, i);
  }

  /** `nodes` with `o` taken out and the order of the others kept. */
  ghost predicate TakenOut<O>(nodes: seq<O>, o: O, left: seq<O>) {
    exists i :: 0 <= i < |nodes| && nodes[i] == o && left == nodes[..i] + nodes[i + 1..]
  }

  /** From `r` to `r'` the record of `o` is freed and unlinked from its own list, its file loses one
      reference, or is freed with its last one, and nothing else changes. */
  ghost predicate OnlyRemoved<F, O>(r: Reg<F, O>, r': Reg<F, O>, o: O)
    requires o in r.objAt && r.objAt[o].file in r.fileAt
  {
    var f, k := r.objAt[o].file, r.objAt[o].kind;
    && r'.objAt == r.objAt - {o}
    && r'.fileAt - {f} == r.fileAt - {f}
    && (f in r'.fileAt <==> r.fileAt[f].refCnt > 1)
    && (f in r'.fileAt ==>
          && TakenOut(r.fileAt[f].Of(k).nodes, o, r'.fileAt[f].Of(k).nodes)
          && r'.fileAt[f] == r.fileAt[f].With(k, OpenList(r'.fileAt[f].Of(k).nodes, r.fileAt[f].Of(k).cnt - 1))
                                    .(refCnt := r.fileAt[f].refCnt - 1))
  }

  /** Removal by token removes exactly the node passed in, at the head, in the middle or at the tail. */
  lemma RemovalIsExact<F, O>(r: Reg<F, O>, fo: multiset<F>, oo: multiset<O>, o: O)
    requires Balanced(r, fo, oo) && oo[o] == 1 && r.LinksLive()
    ensures o in r.objAt && r.objAt[o].file in r.fileAt && RmObj(r, o).Done? && RmObj(r, o).value.1 == 0
    ensures OnlyRemoved(r, RmObj(r, o).value.0, o)
  {
    assert o in oo;
    assert ObjOk(r, oo, o);
    var i := RmObjUnlinks(r, oo, o);
    UnlinkThenRmFile(r, fo, oo, o, i);
    var f, k := r.objAt[o].file, r.objAt[o].kind;
    assert r.fileAt[f].refCnt >= 1;
    RemovedFrom(r, RmObj(r, o).value.0, o, i);
  }

  lemma RemovedFrom<F, O>(r: Reg<F, O>, r': Reg<F, O>, o: O, i: nat)
    requires o in r.objAt && r.objAt[o].file in r.fileAt && r.fileAt[r.objAt[o].file].refCnt >= 1
    requires i < |r.fileAt[r.objAt[o].file].Of(r.objAt[o].kind).nodes|
    requires r.fileAt[r.objAt[o].file].Of(r.objAt[o].kind).nodes[i] == o
    requires r'.objAt == r.objAt - {o}
    requires r'.fileAt == FilesAfter(Unlink(r, r.objAt[o].file, r.objAt[o].kind, i), r.objAt[o].file)
    ensures OnlyRemoved(r, r', o)
  {
  }

  /** The two records are of the same object with the same statistics. */
  ghost predicate SameObj<F>(a: ObjRec<F>, b: ObjRec<F>) {
    SameKey(a, b) && a.stats == b.stats
  }

  /** Records that are neither new nor freed are unchanged but for their counts. */
  ghost predicate RecordsKept<F, O>(before: map<O, ObjRec<F>>, now: map<O, ObjRec<F>>) {
    forall o :: o in before && o in now ==> SameObj(before[o], now[o])
  }

  lemma AddObjKeepsRecords<F, O>(r: Reg<F, O>, f: F, k: Kind, token: nat, stats: Stats, addr: O)
    requires r.LinksLive()
    requires f in r.fileAt && addr in r.objAt ==>
               TokenIndex(r.fileAt[f].Of(k).nodes, r.objAt, token) < |r.fileAt[f].Of(k).nodes|
    ensures var added := AddObj(r, f, k, token, stats, addr);
            added.Done? ==> RecordsKept(r.objAt, added.value.0.objAt)
  {
  }

  lemma RmObjKeepsRecords<F, O>(r: Reg<F, O>, o: O)
    requires r.LinksLive()
    ensures RmObj(r, o).Done? ==> RecordsKept(r.objAt, RmObj(r, o).value.0.objAt)
  {
  }
}
