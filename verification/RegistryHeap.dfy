/** The registry as the C code keeps it: records linked through `next` fields that are searched,
    spliced and counted in place. Each method is proved to do what RegistrySpec says. */
module RegistryHeap {
  import opened Collections
  import opened Results
  import opened CMachine
  import opened DatasetStats
  import opened RegistrySpec
  import opened RegistryInvariant
  import opened RegistryRuns

  /** One open dataset, group, datatype or attribute; the four C structs share these fields. */
  class ObjInfo {
    const kind: Kind
    const fileInfo: FileInfo
    const token: nat
    var refCnt: int
    var stats: Stats
    var next: ObjInfo?

    constructor (kind: Kind, fileInfo: FileInfo, token: nat, refCnt: int, stats: Stats, next: ObjInfo?)
      ensures this.kind == kind && this.fileInfo == fileInfo && this.token == token
      ensures this.refCnt == refCnt && this.stats == stats && this.next == next
    {
      this.kind, this.fileInfo, this.token := kind, fileInfo, token;
      this.refCnt, this.stats, this.next := refCnt, stats, next;
    }

    /** The effect of one successful dataset operation on the statistics. */
    method Record(op: StatOp)
      requires op.SetExtent? ==> |op.size| == |stats.dims|
      modifies `stats
      ensures stats == Apply(old(stats), op)
    {
      if op.SetExtent? {
        SetExtent(op.size);
      } else {
        stats := Apply(stats, op);
      }
    }

    /** The loop of dataset_specific that takes over a new extent. */
    method SetExtent(newSize: seq<nat>)
      requires |newSize| == |stats.dims|
      modifies `stats
      ensures stats == Apply(old(stats), StatOp.SetExtent(newSize))
    {
      if stats.space == Simple {
        ghost var was := stats;
        stats := stats.(spaceSize := 1);
        for u := 0 to |stats.dims|
          invariant stats == was.(dims := stats.dims, spaceSize := stats.spaceSize) && |stats.dims| == |was.dims|
          invariant stats.dims[..u] == newSize[..u] && stats.spaceSize == Product(newSize[..u]) % TWO_64
        {
          ProductGrows(newSize, u);
          stats := stats.(dims := stats.dims[u := newSize[u]],
                          spaceSize := (stats.spaceSize * newSize[u]) % TWO_64);
          assert stats.dims[..u + 1] == newSize[..u + 1];
        }
      }
    }

    ghost predicate Mirrors(rec: ObjRec<FileInfo>)
      reads `refCnt, `stats
    {
      rec == ObjRec(kind, fileInfo, token, refCnt, stats)
    }
  }

  class FileInfo {
    const fileNo: nat
    var refCnt: int
    var openedDatasets: ObjInfo?
    var openedDatasetsCnt: int
    var openedGroups: ObjInfo?
    var openedGroupsCnt: int
    var openedDatatypes: ObjInfo?
    var openedDatatypesCnt: int
    var openedAttributes: ObjInfo?
    var openedAttributesCnt: int
    var next: FileInfo?

    constructor (fileNo: nat, refCnt: int, next: FileInfo?)
      ensures this.fileNo == fileNo && this.refCnt == refCnt && this.next == next
      ensures Mirrors(NewFile(fileNo).(refCnt := refCnt)) && forall k: Kind :: Head(k) == null
    {
      this.fileNo, this.refCnt, this.next := fileNo, refCnt, next;
      openedDatasets, openedGroups, openedDatatypes, openedAttributes := null, null, null, null;
      openedDatasetsCnt, openedGroupsCnt, openedDatatypesCnt, openedAttributesCnt := 0, 0, 0, 0;
    }

    function Head(k: Kind): ObjInfo?
      reads `openedDatasets, `openedGroups, `openedDatatypes, `openedAttributes
    {
      match k
      case Dataset => openedDatasets
      case Group => openedGroups
      case Datatype => openedDatatypes
      case Attribute => openedAttributes
    }

    function Cnt(k: Kind): int
      reads `openedDatasetsCnt, `openedGroupsCnt, `openedDatatypesCnt, `openedAttributesCnt
    {
      match k
      case Dataset => openedDatasetsCnt
      case Group => openedGroupsCnt
      case Datatype => openedDatatypesCnt
      case Attribute => openedAttributesCnt
    }

    method SetList(k: Kind, head: ObjInfo?, cnt: int)
      modifies `openedDatasets, `openedGroups, `openedDatatypes, `openedAttributes
      modifies `openedDatasetsCnt, `openedGroupsCnt, `openedDatatypesCnt, `openedAttributesCnt
      ensures Head(k) == head && Cnt(k) == cnt
      ensures forall j: Kind :: j != k ==> Head(j) == old(Head(j)) && Cnt(j) == old(Cnt(j))
    {
      match k
      case Dataset => openedDatasets, openedDatasetsCnt := head, cnt;
      case Group => openedGroups, openedGroupsCnt := head, cnt;
      case Datatype => openedDatatypes, openedDatatypesCnt := head, cnt;
      case Attribute => openedAttributes, openedAttributesCnt := head, cnt;
    }

    ghost predicate Mirrors(rec: FileRec<ObjInfo>)
      reads `refCnt, `openedDatasetsCnt, `openedGroupsCnt, `openedDatatypesCnt, `openedAttributesCnt
    {
      rec.fileNo == fileNo && rec.refCnt == refCnt && forall k: Kind :: rec.Of(k).cnt == Cnt(k)
    }
  }

  /** Following `next` from `head` visits exactly `nodes`. */
  ghost predicate ObjChain(head: ObjInfo?, nodes: seq<ObjInfo>)
    reads nodes`next
  {
    && head == (if nodes == [] then null else nodes[0])
    && (forall i {:trigger nodes[i].next} :: 0 <= i < |nodes| ==>
          nodes[i].next == if i + 1 < |nodes| then nodes[i + 1] else null)
  }

  ghost predicate FileChain(head: FileInfo?, files: seq<FileInfo>)
    reads files`next
  {
    && head == (if files == [] then null else files[0])
    && (forall i {:trigger files[i].next} :: 0 <= i < |files| ==>
          files[i].next == if i + 1 < |files| then files[i + 1] else null)
  }

  ghost predicate FilesHold(fileAt: map<FileInfo, FileRec<ObjInfo>>)
    reads fileAt.Keys`refCnt, fileAt.Keys`openedDatasetsCnt, fileAt.Keys`openedGroupsCnt
    reads fileAt.Keys`openedDatatypesCnt, fileAt.Keys`openedAttributesCnt
  {
    forall f :: f in fileAt ==> f.Mirrors(fileAt[f])
  }

  ghost predicate ObjsHold(objAt: map<ObjInfo, ObjRec<FileInfo>>)
    reads objAt.Keys`refCnt, objAt.Keys`stats
  {
    forall o :: o in objAt ==> o.Mirrors(objAt[o])
  }

  /** PROV_HELPER. `s` is the state of RegistryRuns that the fields below represent. */
  class ProvHelper {
    var ptrCnt: int
    var openedFilesCnt: int
    var openedFiles: FileInfo?
    ghost var s: State<FileInfo, ObjInfo>

    ghost function Files(): set<FileInfo>
      reads this
    {
      s.reg.fileAt.Keys
    }

    ghost function Objs(): set<ObjInfo>
      reads this
    {
      s.reg.objAt.Keys
    }

    /** The lists that the fields lead to are those of `r`. */
    ghost predicate Holds(r: Reg<FileInfo, ObjInfo>)
      reads `openedFiles, `openedFilesCnt, r.fileAt.Keys, r.objAt.Keys
    {
      && openedFilesCnt == r.filesCnt && WellLinked(r)
      && FileChain(openedFiles, r.files) && FilesHold(r.fileAt) && ObjsHold(r.objAt)
      && (forall f, k: Kind :: f in r.fileAt ==> ObjChain(f.Head(k), r.fileAt[f].Of(k).nodes))
    }

    ghost predicate Valid()
      reads this, Files(), Objs()
    {
      ptrCnt == s.ptrCnt && Holds(s.reg)
    }

    constructor ()
      ensures Valid() && s == Initial()
    {
      ptrCnt, openedFilesCnt, openedFiles := 0, 0, null;
      s := Initial();
    }

    /** The fields lead to the lists of `r`. */
    ghost method Adopt(r: Reg<FileInfo, ObjInfo>)
      requires Holds(r) && ptrCnt == s.ptrCnt
      modifies `s
      ensures Valid() && s == old(s).(reg := r)
    {
      s := s.(reg := r);
    }

    /** The search by number: the node found, the one before it, and its position. */
    method FindFile(no: nat) returns (cur: FileInfo?, last: FileInfo?, ghost i: nat)
      requires Valid()
      ensures i == FileIndex(s.reg.files, s.reg.fileAt, no)
      ensures cur == if i < |s.reg.files| then s.reg.files[i] else null
      ensures cur != null ==> last == s.reg.files[if i == 0 then 0 else i - 1]
    {
      cur, last, i := openedFiles, openedFiles, 0;
      while cur != null && cur.fileNo != no
        invariant 0 <= i <= |s.reg.files|
        invariant cur == if i < |s.reg.files| then s.reg.files[i] else null
        invariant s.reg.files != [] ==> last == s.reg.files[if i == 0 then 0 else i - 1]
        invariant forall j :: 0 <= j < i ==> s.reg.fileAt[s.reg.files[j]].fileNo != no
        decreases |s.reg.files| - i
      {
        assert cur.Mirrors(s.reg.fileAt[cur]);
        last, cur, i := cur, cur.next, i + 1;
      }
      assert cur != null ==> cur.Mirrors(s.reg.fileAt[cur]);
      FileIndexIs(s.reg, no, i);
    }

    /** `ref_cnt++` and `ref_cnt--` */
    method Recount(f: FileInfo, d: int)
      requires Valid() && f in Files()
      modifies this`s, f`refCnt
      ensures Valid() && s == old(s).(reg := Recounted(old(s.reg), f, d))
    {
      ghost var r, r' := s.reg, Recounted(s.reg, f, d);
      assert f.Mirrors(r.fileAt[f]);
      f.refCnt := f.refCnt + d;
      FileStepLists(r, r');
      RecountedHolds(r.fileAt, f, r'.fileAt[f]);
      Adopt(r');
    }

    /** A new node in front of the list of open files. */
    method LinkFile(no: nat) returns (f: FileInfo)
      requires Valid()
      modifies this
      ensures Valid() && fresh(f) && f !in old(Files())
      ensures s == old(s).(reg := Reg([f] + old(s.reg.files), old(s.reg.filesCnt) + 1,
                                      old(s.reg.fileAt)[f := NewFile(no).(refCnt := 1)], old(s.reg.objAt)))
    {
      ghost var r := s.reg;
      f := new FileInfo(no, 1, openedFiles);
      openedFiles, openedFilesCnt := f, openedFilesCnt + 1;
      ghost var r' := Reg([f] + r.files, r.filesCnt + 1, r.fileAt[f := NewFile(no).(refCnt := 1)], r.objAt);
      assert FilesHold(r.fileAt) && ObjsHold(r.objAt);
      LinkedFile(r, r', f);
      Adopt(r');
    }

    /** add_file_node */
    method AddFileNode(no: nat) returns (f: FileInfo)
      requires Valid() && AddFileAsserts(s.reg, no)
      modifies this, Files()
      ensures Valid() && fresh(Files() - old(Files())) && s == old(s).(reg := s.reg)
      ensures AddFile(old(s.reg), no, f) == Done((s.reg, f)) && FileAddress(old(s.reg), no, f)
    {
      var cur, _, i := FindFile(no);
      if cur == null {
        f := LinkFile(no);
      } else {
        f := cur;
        Recount(f, 1);
      }
    }

    /** Takes the node at position `i` out of the list of open files. */
    method SpliceFile(cur: FileInfo, last: FileInfo, ghost files: seq<FileInfo>, ghost i: nat)
      requires FileChain(openedFiles, files) && Distinct(files)
      requires i < |files| && files[i] == cur && (0 < i ==> last == files[i - 1])
      modifies this`openedFiles, last`next
      ensures FileChain(openedFiles, Without(files, i))
    {
      if cur == openedFiles {
        openedFiles := openedFiles.next;
      } else {
        last.next := cur.next;
      }
      ghost var left := Without(files, i);
      forall j | 0 <= j < |left| ensures left[j].next == if j + 1 < |left| then left[j + 1] else null {
        assert left[j] == files[if j < i then j else j + 1];
      }
    }

    /** rm_file_node. The record of the last reference leaves `Files()`. */
    method RmFileNode(no: nat)
      requires Valid() && RmFile(s.reg, no).Done?
      modifies this, Files()
      ensures Valid() && s == old(s).(reg := RmFile(old(s.reg), no).value)
    {
      assert openedFiles != null && openedFilesCnt != 0 && no != 0;
      var cur, last, i := FindFile(no);
      if cur != null {
        ReleaseFile(cur, last, i);
      }
    }

    method ReleaseFile(cur: FileInfo, last: FileInfo, ghost i: nat)
      requires Valid() && i < |s.reg.files| && s.reg.files[i] == cur
      requires last == s.reg.files[if i == 0 then 0 else i - 1]
      requires i == FileIndex(s.reg.files, s.reg.fileAt, cur.fileNo) && RmFile(s.reg, cur.fileNo).Done?
      modifies this, cur`refCnt, last`next
      ensures Valid() && s == old(s).(reg := RmFile(old(s.reg), cur.fileNo).value)
    {
      ghost var r := s.reg;
      Recount(cur, -1);
      assert cur.Mirrors(s.reg.fileAt[cur]);
      if cur.refCnt == 0 {
        assert s.reg.fileAt - {cur} == r.fileAt - {cur};
        FreeFile(cur, last, i);
      }
    }

    /** The last reference is gone: the sanity checks, and the node is unlinked and freed. */
    method FreeFile(cur: FileInfo, last: FileInfo, ghost i: nat)
      requires Valid() && i < |s.reg.files| && s.reg.files[i] == cur
      requires last == s.reg.files[if i == 0 then 0 else i - 1]
      requires ListsEmpty(s.reg.fileAt[cur])
      modifies this, last`next
      ensures Valid()
      ensures s == old(s).(reg := Reg(Without(old(s.reg.files), i), old(s.reg.filesCnt) - 1,
                                      old(s.reg.fileAt) - {cur}, old(s.reg.objAt)))
    {
      ghost var r := s.reg;
      assert cur.openedDatasetsCnt == 0 && cur.openedGroupsCnt == 0
          && cur.openedDatatypesCnt == 0 && cur.openedAttributesCnt == 0 by { EmptyCounters(cur, r.fileAt[cur]); }
      SpliceFile(cur, last, r.files, i);
      openedFilesCnt := openedFilesCnt - 1;
      ghost var r' := Reg(Without(r.files, i), r.filesCnt - 1, r.fileAt - {cur}, r.objAt);
      FreedShape(r, cur, i);
      assert FilesHold(r.fileAt) && ObjsHold(r.objAt);
      FewerHold(r.fileAt, cur);
      Adopt(r');
    }

    // ---- open objects ----

    /** The search by token: the node found, the one before it, and its position. */
    method FindObj(f: FileInfo, k: Kind, token: nat) returns (cur: ObjInfo?, last: ObjInfo?, ghost i: nat)
      requires Valid() && f in Files()
      ensures i == TokenIndex(s.reg.fileAt[f].Of(k).nodes, s.reg.objAt, token)
      ensures cur == if i < |s.reg.fileAt[f].Of(k).nodes| then s.reg.fileAt[f].Of(k).nodes[i] else null
      ensures cur != null ==> last == s.reg.fileAt[f].Of(k).nodes[if i == 0 then 0 else i - 1]
    {
      ghost var nodes := s.reg.fileAt[f].Of(k).nodes;
      assert ObjChain(f.Head(k), nodes);
      cur, last, i := f.Head(k), f.Head(k), 0;
      while cur != null && cur.token != token
        invariant 0 <= i <= |nodes|
        invariant cur == if i < |nodes| then nodes[i] else null
        invariant nodes != [] ==> last == nodes[if i == 0 then 0 else i - 1]
        invariant forall j :: 0 <= j < i ==> s.reg.objAt[nodes[j]].token != token
        decreases |nodes| - i
      {
        assert cur.Mirrors(s.reg.objAt[cur]);
        last, cur, i := cur, cur.next, i + 1;
      }
      assert cur != null ==> cur.Mirrors(s.reg.objAt[cur]);
      TokenIndexIs(nodes, s.reg.objAt, token, i);
    }

    method RecountObj(o: ObjInfo, d: int)
      requires Valid() && o in Objs()
      modifies this`s, o`refCnt
      ensures Valid() && s == old(s).(reg := RecountedObj(old(s.reg), o, d))
    {
      ghost var r, r' := s.reg, RecountedObj(s.reg, o, d);
      assert o.Mirrors(r.objAt[o]);
      o.refCnt := o.refCnt + d;
      ObjStepShape(r, r');
      assert ObjsHold(r'.objAt);
      Adopt(r');
    }

    /** A new node in front of list `k` of `f`; all other lists are as they were. */
    method PushObj(f: FileInfo, k: Kind, token: nat, stats: Stats) returns (o: ObjInfo)
      requires Valid() && f in Files()
      modifies f`openedDatasets, f`openedGroups, f`openedDatatypes, f`openedAttributes
      modifies f`openedDatasetsCnt, f`openedGroupsCnt, f`openedDatatypesCnt, f`openedAttributesCnt
      ensures fresh(o) && o.Mirrors(ObjRec(k, f, token, 1, stats))
      ensures forall j: Kind :: f.Cnt(j) == old(f.Cnt(j)) + (if j == k then 1 else 0)
      ensures forall g, j: Kind :: g in Files() ==>
                ObjChain(g.Head(j), Link(s.reg, f, k, token, stats, o).fileAt[g].Of(j).nodes)
    {
      ghost var nodes := s.reg.fileAt[f].Of(k).nodes;
      assert ObjChain(f.Head(k), nodes);
      o := new ObjInfo(k, f, token, 1, stats, f.Head(k));
      f.SetList(k, o, f.Cnt(k) + 1);
      ObjChainPush(o, nodes);
      forall g, j: Kind | g in Files()
        ensures ObjChain(g.Head(j), Link(s.reg, f, k, token, stats, o).fileAt[g].Of(j).nodes)
      {
        LinkOf(s.reg, f, k, token, stats, o, g, j);
        if g != f || j != k { assert old(ObjChain(g.Head(j), s.reg.fileAt[g].Of(j).nodes)); }
      }
    }

    /** The node joins the registry. */
    method LinkObj(f: FileInfo, k: Kind, token: nat, stats: Stats) returns (o: ObjInfo)
      requires Valid() && f in Files()
      modifies `s, f
      ensures Valid() && fresh(o) && o !in old(Objs())
      ensures s == old(s).(reg := Link(old(s.reg), f, k, token, stats, o))
    {
      ghost var r := s.reg;
      assert f.Mirrors(r.fileAt[f]);
      o := PushObj(f, k, token, stats);
      ghost var r' := Link(r, f, k, token, stats, o);
      LinkLists(r, f, k, token, stats, o);
      ListedIsLive(r');
      LinkMirrors(f, r, k, token, stats, o);
      assert ObjsHold(r.objAt);
      assert FilesHold(r'.fileAt) && ObjsHold(r'.objAt);
      Adopt(r');
    }

    /** add_grp_node, add_dtype_node, add_attr_node; `stats` is what a new dataset record holds. */
    method AddObjNode(f: FileInfo, k: Kind, token: nat, stats: Stats) returns (o: ObjInfo)
      requires Valid() && f in Files()
      modifies this`s, f, Objs()`refCnt
      ensures Valid() && fresh(Objs() - old(Objs())) && s == old(s).(reg := s.reg)
      ensures AddObj(old(s.reg), f, k, token, stats, o) == Done((s.reg, o))
      ensures ObjAddress(old(s.reg), f, k, token, o) && o.kind == k && o.token == token && o.fileInfo == f
    {
      ghost var r := s.reg;
      var cur, _, i := FindObj(f, k, token);
      if cur == null {
        Recount(f, 1);
        o := LinkObj(f, k, token, stats);
      } else {
        o := cur;
        ListedAddress(r, f, k, o);
        RecountObj(o, 1);
      }
      assert o.Mirrors(s.reg.objAt[o]);
      AddObjIs(r, f, k, token, stats, o, i);
    }

    /** _search_home_file */
    method SearchHomeFile(no: nat) returns (home: FileInfo?)
      requires Valid()
      modifies this`s, Files()`refCnt
      ensures Valid()
      ensures home != null <==> HomeOf(old(s.reg), no).Some?
      ensures home != null ==> home == HomeOf(old(s.reg), no).value && s == old(s).(reg := Retain(old(s.reg), home))
      ensures home == null ==> s == old(s)
    {
      if openedFilesCnt < 1 {
        return null;
      }
      var cur, _, _ := FindFile(no);
      if cur != null {
        Recount(cur, 1);
      }
      return cur;
    }

    /** A file record in no list, for a dataset whose home file is not open. */
    method FakeFile(no: nat) returns (f: FileInfo)
      requires Valid()
      modifies this`s
      ensures Valid() && fresh(f) && f !in old(Files())
      ensures s == old(s).(reg := old(s.reg).(fileAt := old(s.reg.fileAt)[f := NewFile(no)]))
    {
      ghost var r := s.reg;
      f := new FileInfo(no, 0, null);
      ghost var r' := r.(fileAt := r.fileAt[f := NewFile(no)]);
      forall k: Kind ensures r'.fileAt[f].Of(k) == OpenList([], 0) && f.Cnt(k) == 0 && f.Head(k) == null { }
      FileStepLists(r, r');
      assert FilesHold(r'.fileAt) && ObjsHold(r.objAt);
      Adopt(r');
    }

    /** add_dataset_node. `dummy` is the record made up for a missing home file, if any. */
    method AddDatasetNode(upper: FileInfo, objFileNo: nat, token: nat, extent: Extent)
      returns (o: ObjInfo, ghost dummy: FileInfo)
      requires Valid() && upper in Files()
      modifies this`s, Files(), Objs()`refCnt
      ensures Valid() && fresh(Objs() - old(Objs())) && fresh(Files() - old(Files())) && s == old(s).(reg := s.reg)
      ensures External(old(s.reg), upper, Dataset, objFileNo) && HomeOf(old(s.reg), objFileNo).None?
              ==> dummy !in old(Files())
      ensures AddDataset(old(s.reg), upper, objFileNo, token, NewStats(extent), o, dummy) == Done((s.reg, o))
      ensures ObjAddress(old(s.reg), DatasetHome(old(s.reg), upper, objFileNo, dummy).0, Dataset, token, o)
      ensures o.kind == Dataset && o.token == token && o.fileInfo.fileNo == objFileNo
    {
      var file;
      file, dummy := DatasetFile(upper, objFileNo);
      ghost var r' := s.reg;
      o := AddObjNode(file, Dataset, token, NewStats(extent));
      AddObjKeepsFiles(r', file, Dataset, token, NewStats(extent), o);
    }

    /** The record whose list a dataset goes on: that of its own file, if it is open. */
    method DatasetFile(upper: FileInfo, objFileNo: nat) returns (file: FileInfo, ghost dummy: FileInfo)
      requires Valid() && upper in Files()
      modifies this`s, Files()`refCnt
      ensures Valid() && file in Files() && fresh(Files() - old(Files())) && Objs() == old(Objs())
      ensures (file, s.reg) == DatasetHome(old(s.reg), upper, objFileNo, dummy) && s == old(s).(reg := s.reg)
      ensures file.fileNo == objFileNo
      ensures External(old(s.reg), upper, Dataset, objFileNo) && HomeOf(old(s.reg), objFileNo).None?
              ==> dummy !in old(Files())
    {
      file, dummy := upper, upper;
      assert upper.Mirrors(s.reg.fileAt[upper]);
      if objFileNo != upper.fileNo {
        var home := SearchHomeFile(objFileNo);
        if home != null {
          file := home;
        } else {
          file := FakeFile(objFileNo);
          dummy := file;
        }
      }
    }

    /** Takes the node at position `i` out of list `k` of `f`. */
    method SpliceObj(f: FileInfo, k: Kind, cur: ObjInfo, last: ObjInfo, ghost nodes: seq<ObjInfo>, ghost i: nat)
      requires ObjChain(f.Head(k), nodes) && Distinct(nodes)
      requires i < |nodes| && nodes[i] == cur && (0 < i ==> last == nodes[i - 1])
      modifies f`openedDatasets, f`openedGroups, f`openedDatatypes, f`openedAttributes
      modifies f`openedDatasetsCnt, f`openedGroupsCnt, f`openedDatatypesCnt, f`openedAttributesCnt, last`next
      ensures ObjChain(f.Head(k), Without(nodes, i)) && f.Cnt(k) == old(f.Cnt(k)) - 1
      ensures forall j: Kind :: j != k ==> f.Head(j) == old(f.Head(j)) && f.Cnt(j) == old(f.Cnt(j))
      ensures i == 0 ==> unchanged(last`next)
    {
      if cur == f.Head(k) {
        f.SetList(k, cur.next, f.Cnt(k) - 1);
      } else {
        last.next := cur.next;
        f.SetList(k, f.Head(k), f.Cnt(k) - 1);
      }
      ghost var left := Without(nodes, i);
      forall j | 0 <= j < |left| ensures left[j].next == if j + 1 < |left| then left[j + 1] else null {
        assert left[j] == nodes[if j < i then j else j + 1];
      }
    }

    /** Splicing one list leaves all other lists as they were. */
    method SpliceAmong(f: FileInfo, k: Kind, cur: ObjInfo, last: ObjInfo, ghost i: nat, ghost r: Reg<FileInfo, ObjInfo>)
      requires Valid() && f in Files()
      requires i < |s.reg.fileAt[f].Of(k).nodes| && s.reg.fileAt[f].Of(k).nodes[i] == cur
      requires last == s.reg.fileAt[f].Of(k).nodes[if i == 0 then 0 else i - 1]
      requires r == Unlink(s.reg, f, k, i)
      modifies f`openedDatasets, f`openedGroups, f`openedDatatypes, f`openedAttributes
      modifies f`openedDatasetsCnt, f`openedGroupsCnt, f`openedDatatypesCnt, f`openedAttributesCnt, last`next
      ensures forall j: Kind :: f.Cnt(j) == old(f.Cnt(j)) - (if j == k then 1 else 0)
      ensures forall g, j: Kind :: g in r.fileAt ==> ObjChain(g.Head(j), r.fileAt[g].Of(j).nodes)
    {
      ghost var nodes := s.reg.fileAt[f].Of(k).nodes;
      assert ListOk(s.reg, f, k) && ObjChain(f.Head(k), nodes) && last in nodes;
      SpliceObj(f, k, cur, last, nodes, i);
      forall g, j: Kind | g in r.fileAt ensures ObjChain(g.Head(j), r.fileAt[g].Of(j).nodes) {
        UnlinkOf(s.reg, f, k, i, g, j);
        if g != f || j != k {
          assert old(ObjChain(g.Head(j), s.reg.fileAt[g].Of(j).nodes));
          ListsApart(s.reg, f, k, last, g, j);
        }
      }
    }

    /** The node is unlinked from its list and freed. */
    method UnlinkObj(f: FileInfo, k: Kind, cur: ObjInfo, last: ObjInfo, ghost i: nat)
      requires Valid() && f in Files()
      requires i < |s.reg.fileAt[f].Of(k).nodes| && s.reg.fileAt[f].Of(k).nodes[i] == cur
      requires last == s.reg.fileAt[f].Of(k).nodes[if i == 0 then 0 else i - 1]
      modifies this`s, f, last`next
      ensures Valid() && s == old(s).(reg := Unlink(old(s.reg), f, k, i))
    {
      ghost var r, r' := s.reg, Unlink(s.reg, f, k, i);
      assert f.Mirrors(r.fileAt[f]);
      SpliceAmong(f, k, cur, last, i, r');
      UnlinkShape(r, f, k, i);
      UnlinkMirrors(f, r, k, i);
      assert ObjsHold(r.objAt);
      assert Holds(r');
      Adopt(r');
    }

    /** rm_dataset_node, rm_grp_node, rm_dtype_node, rm_attr_node */
    method RmObjNode(o: ObjInfo) returns (left: int)
      requires Valid() && RmObj(s.reg, o).Done?
      modifies this, Files(), Objs()
      ensures Valid() && s == old(s).(reg := s.reg)
      ensures RmObj(old(s.reg), o) == Done((s.reg, left))
    {
      assert o.Mirrors(s.reg.objAt[o]);
      RecountObj(o, -1);
      assert o.Mirrors(s.reg.objAt[o]);
      if o.refCnt > 0 {
        return o.refCnt;
      }
      left := DropObj(o);
    }

    /** The last reference to `o` is gone. */
    method DropObj(o: ObjInfo) returns (left: int)
      requires Valid() && o in Objs() && o.fileInfo in Files()
      requires s.reg.fileAt[o.fileInfo].Of(o.kind).nodes != []
      requires Dropped(s.reg, s.reg.objAt[o], o.fileInfo.fileNo).Done?
      modifies this, Files(), Objs()
      ensures Valid() && s == old(s).(reg := s.reg)
      ensures Dropped(old(s.reg), old(s.reg.objAt[o]), o.fileInfo.fileNo) == Done((s.reg, left))
    {
      var file, no := o.fileInfo, o.fileInfo.fileNo;
      assert o.Mirrors(s.reg.objAt[o]);
      var cur, last, i := FindObj(file, o.kind, o.token);
      if cur == null {
        return -1;
      }
      UnlinkObj(file, o.kind, cur, last, i);
      RmFileNode(no);
      return 0;
    }

    /** ptr_cnt_increment and ptr_cnt_decrement, with the new account of who holds what. */
    method CountHandles(d: int, ghost now: State<FileInfo, ObjInfo>)
      requires Valid() && now.reg == s.reg && now.ptrCnt == s.ptrCnt + d
      modifies `ptrCnt, `s
      ensures Valid() && s == now
    {
      ptrCnt := ptrCnt + d;
      s := now;
    }

    // ---- callbacks: each one is the step of RegistryRuns named in its contract ----

    /** _file_open_common, for file create, open and reopen, and for wrapping a file. The new handle is
        on `f`: the record of that number if there is one, a new record otherwise. */
    method FileOpenCommon(no: nat) returns (f: FileInfo)
      requires Valid() && AddFileAsserts(s.reg, no)
      modifies this, Files()
      ensures Valid() && Step(old(s), OpenFile(no, f)) == Done(s)
      ensures FileAddress(old(s.reg), no, f) && s.fileHandles == old(s.fileHandles) + multiset{f}
      ensures fresh(Files() - old(Files())) && Objs() == old(Objs())
    {
      ghost var was := s;
      f := AddFileNode(no);
      OpenFileStep(was, no, f, s.reg, f);
      CountHandles(1, s.(ptrCnt := s.ptrCnt + 1, fileHandles := s.fileHandles + multiset{f}));
    }

    /** _obj_wrap_under for datasets, groups, datatypes and attributes. The new handle is on `o`: the
        record with that token if there is one, a new record otherwise. */
    method ObjWrapUnder(upper: Upper<FileInfo, ObjInfo>, kind: Kind, token: nat, fileNo: nat, extent: Extent)
      returns (o: ObjInfo, ghost dummy: FileInfo)
      requires Valid() && UpperFile(s, upper).Done? && UpperFile(s, upper).value in Files()
      modifies this, Files(), Objs()`refCnt
      ensures Valid() && Step(old(s), OpenObj(upper, kind, token, fileNo, extent, o, dummy)) == Done(s)
      ensures OpenAddresses(old(s.reg), UpperFile(old(s), upper).value,
                            OpenObj(upper, kind, token, fileNo, extent, o, dummy))
      ensures o.kind == kind && o.token == token && (kind == Dataset ==> o.fileInfo.fileNo == fileNo)
      ensures kind != Dataset ==>
                o.fileInfo == match upper case ViaFile(g) => g case ViaObj(u) => u.fileInfo case ViaCtx(c) => c
      ensures s.objHandles == old(s.objHandles) + multiset{o}
      ensures fresh(Files() - old(Files())) && fresh(Objs() - old(Objs()))
    {
      var f := FileInfoOf(upper);
      o, dummy := WrapIn(f, upper, kind, token, fileNo, extent);
    }

    /** The part of _obj_wrap_under after the file information is known. */
    method WrapIn(f: FileInfo, ghost upper: Upper<FileInfo, ObjInfo>, kind: Kind, token: nat, fileNo: nat,
                  extent: Extent)
      returns (o: ObjInfo, ghost dummy: FileInfo)
      requires Valid() && f in Files() && UpperFile(s, upper) == Done(f)
      modifies this, Files(), Objs()`refCnt
      ensures Valid() && Step(old(s), OpenObj(upper, kind, token, fileNo, extent, o, dummy)) == Done(s)
      ensures OpenAddresses(old(s.reg), f, OpenObj(upper, kind, token, fileNo, extent, o, dummy))
      ensures o.kind == kind && o.token == token
      ensures if kind == Dataset then o.fileInfo.fileNo == fileNo else o.fileInfo == f
      ensures s.objHandles == old(s.objHandles) + multiset{o}
      ensures fresh(Files() - old(Files())) && fresh(Objs() - old(Objs()))
    {
      ghost var was, leaked := s, Leaked(s.reg, f, kind, fileNo);
      if kind == Dataset {
        o, dummy := AddDatasetNode(f, fileNo, token, extent);
      } else {
        o := AddObjNode(f, kind, token, NO_STATS);
        AddObjKeepsFiles(was.reg, f, kind, token, NO_STATS, o);
        dummy := f;
      }
      OpenStep(was, OpenObj(upper, kind, token, fileNo, extent, o, dummy), f, s.reg, o);
      CountHandles(1, AfterOpen(was, s.reg, o, leaked));
    }

    /** The file information that an object's parent leads to. */
    method FileInfoOf(upper: Upper<FileInfo, ObjInfo>) returns (f: FileInfo)
      requires Valid() && UpperFile(s, upper).Done?
      ensures f == UpperFile(s, upper).value
      ensures f == match upper case ViaFile(g) => g case ViaObj(o) => o.fileInfo case ViaCtx(c) => c
    {
      match upper
      case ViaFile(file) => f := file;
      case ViaObj(o) =>
        assert o.Mirrors(s.reg.objAt[o]);
        f := o.fileInfo;
      case ViaCtx(c) => f := c;
    }

    /** file_close, and unwrap_object on a file. */
    method CloseFileHandle(f: FileInfo)
      requires Valid() && Step(s, CloseFile(f)).Done?
      modifies this, Files()
      ensures Valid() && Step(old(s), CloseFile(f)) == Done(s)
    {
      ghost var was := s;
      assert f.Mirrors(s.reg.fileAt[f]);
      RmFileNode(f.fileNo);
      FileReleaseStep(was, f, s.reg);
      CountHandles(-1, s.(ptrCnt := s.ptrCnt - 1, fileHandles := s.fileHandles - multiset{f}));
    }

    /** dataset_close, group_close, datatype_close, attr_close, and unwrap_object on these. */
    method CloseObjHandle(o: ObjInfo)
      requires Valid() && Step(s, CloseObj(o)).Done?
      modifies this, Files(), Objs()
      ensures Valid() && Step(old(s), CloseObj(o)) == Done(s)
    {
      ghost var was := s;
      var left := RmObjNode(o);
      ghost var now := was.(reg := s.reg, ptrCnt := was.ptrCnt - 1, objHandles := was.objHandles - multiset{o});
      CloseObjStep(was, o, s.reg, left);
      CountHandles(-1, now);
    }

    /** get_wrap_ctx; a wrap context is the file record it holds. */
    method TakeWrapCtx(upper: Upper<FileInfo, ObjInfo>) returns (ctx: FileInfo)
      requires Valid() && Step(s, GetWrapCtx(upper)).Done?
      modifies this, Files()`refCnt
      ensures Valid() && UpperFile(old(s), upper) == Done(ctx)
      ensures ctx == match upper case ViaFile(g) => g case ViaObj(o) => o.fileInfo case ViaCtx(c) => c
      ensures Step(old(s), GetWrapCtx(upper)) == Done(s)
    {
      ctx := FileInfoOf(upper);
      Recount(ctx, 1);
      CountHandles(0, s.(ctxs := s.ctxs + multiset{ctx}));
    }

    /** free_wrap_ctx */
    method DropWrapCtx(ctx: FileInfo)
      requires Valid() && Step(s, FreeWrapCtx(ctx)).Done?
      modifies this, Files()
      ensures Valid() && Step(old(s), FreeWrapCtx(ctx)) == Done(s)
    {
      ghost var was := s;
      assert ctx.Mirrors(s.reg.fileAt[ctx]);
      RmFileNode(ctx.fileNo);
      FileReleaseStep(was, ctx, s.reg);
      CountHandles(0, s.(ctxs := s.ctxs - multiset{ctx}));
    }

    /** The handle of an asynchronous request, from H5VL_provenance_new_obj. */
    method NewRequestHandle()
      requires Valid()
      modifies this
      ensures Valid() && Step(old(s), NewRequest) == Done(s)
    {
      CountHandles(1, s.(ptrCnt := s.ptrCnt + 1, requests := s.requests + 1));
    }

    /** request_free, request_notify and request_cancel, and a request_wait that finds the request done. */
    method FreeRequestHandle()
      requires Valid() && s.requests > 0
      modifies this
      ensures Valid() && Step(old(s), FreeRequest) == Done(s)
    {
      CountHandles(-1, s.(ptrCnt := s.ptrCnt - 1, requests := s.requests - 1));
    }

    /** The extra hold of a refresh, taken before the underlying call. */
    method HoldForRefresh(o: ObjInfo)
      requires Valid() && o in Objs()
      modifies this, o`refCnt
      ensures Valid() && Step(old(s), BeginRefresh(o)) == Done(s)
    {
      RecountObj(o, 1);
      CountHandles(0, s.(holds := s.holds + multiset{o}));
    }

    /** The release of the hold at the end of a refresh. */
    method ReleaseAfterRefresh(o: ObjInfo)
      requires Valid() && Step(s, EndRefresh(o)).Done?
      modifies this, Files(), Objs()
      ensures Valid() && Step(old(s), EndRefresh(o)) == Done(s)
    {
      ghost var was := s;
      var left := RmObjNode(o);
      EndRefreshStep(was, o, s.reg, left);
      CountHandles(0, s.(holds := s.holds - multiset{o}));
    }

    /** The statistics part of dataset_read, dataset_write, dataset_set_extent and a refresh. */
    method RecordOperation(o: ObjInfo, op: StatOp)
      requires Valid() && o in Objs() && (op.SetExtent? ==> |op.size| == |o.stats.dims|)
      modifies this, o`stats
      ensures Valid() && Step(old(s), Operate(o, op)) == Done(s)
    {
      RecordOn(o, op);
      CountHandles(0, s);
    }

    method RecordOn(o: ObjInfo, op: StatOp)
      requires Valid() && o in Objs() && (op.SetExtent? ==> |op.size| == |o.stats.dims|)
      modifies `s, o`stats
      ensures Valid() && s == old(s).(reg := Restat(old(s.reg), o, op))
    {
      ghost var r, r' := s.reg, Restat(s.reg, o, op);
      assert o.Mirrors(r.objAt[o]);
      o.Record(op);
      ObjStepShape(r, r');
      assert ObjsHold(r'.objAt);
      Adopt(r');
    }
  }

  lemma EmptyCounters(f: FileInfo, rec: FileRec<ObjInfo>)
    requires f.Mirrors(rec) && ListsEmpty(rec)
    ensures f.openedDatasetsCnt == 0 && f.openedGroupsCnt == 0
    ensures f.openedDatatypesCnt == 0 && f.openedAttributesCnt == 0
  {
    assert rec.Of(Dataset).cnt == rec.Of(Group).cnt == rec.Of(Datatype).cnt == rec.Of(Attribute).cnt == 0;
  }

  /** What Valid asks of the shape of the lists. */
  ghost predicate WellLinked<F, O>(r: Reg<F, O>) {
    Distinct(r.files) && ListsOk(r) && r.LinksLive()
  }

  lemma FreedShape<F, O>(r: Reg<F, O>, f: F, i: nat)
    requires WellLinked(r) && i < |r.files| && r.files[i] == f && ListsEmpty(r.fileAt[f])
    ensures WellLinked(Reg(Without(r.files, i), r.filesCnt - 1, r.fileAt - {f}, r.objAt))
  {
    var r' := Reg(Without(r.files, i), r.filesCnt - 1, r.fileAt - {f}, r.objAt);
    WithoutMembers(r.files, i);
    NoLinks(r, f);
    FileStepLists(r, r');
    ListedIsLive(r');
  }

  lemma NoLinks<F, O>(r: Reg<F, O>, f: F)
    requires ListsOk(r) && f in r.fileAt && ListsEmpty(r.fileAt[f])
    ensures r.fileAt[f].Linked() == 0
  {
    assert ListOk(r, f, Dataset) && ListOk(r, f, Group) && ListOk(r, f, Datatype) && ListOk(r, f, Attribute);
  }

  lemma ListedIsLive<F, O>(r': Reg<F, O>)
    requires ListsOk(r') && r'.FilesLive()
    ensures r'.LinksLive()
  {
    forall f, k: Kind, o | f in r'.fileAt && o in r'.fileAt[f].Of(k).nodes ensures o in r'.objAt {
      assert ListOk(r', f, k);
    }
  }

  /** Changing counts and statistics of object records changes no list. */
  lemma ObjStepShape<F, O>(r: Reg<F, O>, r': Reg<F, O>)
    requires WellLinked(r) && r'.files == r.files && r'.fileAt == r.fileAt && r'.objAt.Keys == r.objAt.Keys
    requires forall o :: o in r.objAt ==> SameKey(r.objAt[o], r'.objAt[o])
    ensures WellLinked(r')
  {
    forall f, k: Kind | f in r'.fileAt ensures ListOk(r', f, k) {
      assert ListOk(r, f, k);
    }
    ListedIsLive(r');
  }

  lemma TokenIndexIs<F, O>(nodes: seq<O>, at: map<O, ObjRec<F>>, token: nat, i: nat)
    requires (forall o :: o in nodes ==> o in at) && i <= |nodes|
    requires forall j :: 0 <= j < i ==> at[nodes[j]].token != token
    requires i < |nodes| ==> at[nodes[i]].token == token
    ensures TokenIndex(nodes, at, token) == i
  {
  }

  lemma LinkOf<F, O>(r: Reg<F, O>, f: F, k: Kind, token: nat, stats: Stats, o: O, g: F, j: Kind)
    requires f in r.fileAt && g in r.fileAt
    ensures var list := r.fileAt[g].Of(j);
            Link(r, f, k, token, stats, o).fileAt[g].Of(j)
            == if g == f && j == k then OpenList([o] + list.nodes, list.cnt + 1) else list
  {
  }

  lemma AddObjIs<F, O>(r: Reg<F, O>, f: F, k: Kind, token: nat, stats: Stats, o: O, i: nat)
    requires r.LinksLive() && f in r.fileAt && i == TokenIndex(r.fileAt[f].Of(k).nodes, r.objAt, token)
    requires i < |r.fileAt[f].Of(k).nodes| ==> o == r.fileAt[f].Of(k).nodes[i]
    ensures AddObj(r, f, k, token, stats, o)
         == Done((if i < |r.fileAt[f].Of(k).nodes| then RecountedObj(r, o, 1)
                  else Link(Retain(r, f), f, k, token, stats, o), o))
  {
  }

  lemma ListedAddress<F, O>(r: Reg<F, O>, f: F, k: Kind, o: O)
    requires ListsOk(r) && f in r.fileAt && o in r.fileAt[f].Of(k).nodes
    ensures o in r.objAt && ObjAddress(r, f, k, r.objAt[o].token, o)
  {
    assert ListOk(r, f, k);
  }

  lemma AddObjKeepsFiles<F, O>(r: Reg<F, O>, f: F, k: Kind, token: nat, stats: Stats, addr: O)
    requires r.LinksLive()
    ensures var added := AddObj(r, f, k, token, stats, addr);
            added.Done? ==> added.value.0.fileAt.Keys == r.fileAt.Keys
  {
  }

  lemma ListsApart<F, O>(r: Reg<F, O>, f: F, k: Kind, o: O, g: F, j: Kind)
    requires ListsOk(r) && f in r.fileAt && g in r.fileAt && o in r.fileAt[f].Of(k).nodes && (g != f || j != k)
    ensures o !in r.fileAt[g].Of(j).nodes
  {
    assert ListOk(r, f, k) && ListOk(r, g, j);
  }

  lemma UnlinkOf<F, O>(r: Reg<F, O>, f: F, k: Kind, i: nat, g: F, j: Kind)
    requires f in r.fileAt && g in r.fileAt && i < |r.fileAt[f].Of(k).nodes|
    ensures var list := r.fileAt[g].Of(j);
            Unlink(r, f, k, i).fileAt[g].Of(j)
            == if g == f && j == k then OpenList(Without(list.nodes, i), list.cnt - 1) else list
  {
  }

  lemma LinkMirrors(f: FileInfo, r: Reg<FileInfo, ObjInfo>, k: Kind, token: nat, stats: Stats, o: ObjInfo)
    requires f in r.fileAt && r.fileAt[f].fileNo == f.fileNo && r.fileAt[f].refCnt == f.refCnt
    requires forall j: Kind :: f.Cnt(j) == r.fileAt[f].Of(j).cnt + (if j == k then 1 else 0)
    ensures f.Mirrors(Link(r, f, k, token, stats, o).fileAt[f])
  {
  }

  lemma UnlinkMirrors(f: FileInfo, r: Reg<FileInfo, ObjInfo>, k: Kind, i: nat)
    requires f in r.fileAt && i < |r.fileAt[f].Of(k).nodes|
    requires r.fileAt[f].fileNo == f.fileNo && r.fileAt[f].refCnt == f.refCnt
    requires forall j: Kind :: f.Cnt(j) == r.fileAt[f].Of(j).cnt - (if j == k then 1 else 0)
    ensures f.Mirrors(Unlink(r, f, k, i).fileAt[f])
  {
  }

  lemma UnlinkShape<F, O>(r: Reg<F, O>, f: F, k: Kind, i: nat)
    requires WellLinked(r) && f in r.fileAt && i < |r.fileAt[f].Of(k).nodes|
    ensures WellLinked(Unlink(r, f, k, i))
  {
    assert ListOk(r, f, k);
    var o := r.fileAt[f].Of(k).nodes[i];
    assert o in r.fileAt[f].Of(k).nodes;
    UnlinkLists(r, o, i);
    ListedIsLive(Unlink(r, f, k, i));
  }

  lemma ObjChainPush(o: ObjInfo, nodes: seq<ObjInfo>)
    requires ObjChain(o.next, nodes) && o !in nodes
    ensures ObjChain(o, [o] + nodes)
  {
  }

  lemma RecountedHolds(fileAt: map<FileInfo, FileRec<ObjInfo>>, f: FileInfo, rec: FileRec<ObjInfo>)
    requires f in fileAt && rec == fileAt[f].(refCnt := f.refCnt) && rec.fileNo == f.fileNo
    requires forall k: Kind :: fileAt[f].Of(k).cnt == f.Cnt(k)
    requires forall g :: g in fileAt && g != f ==> g.Mirrors(fileAt[g])
    requires forall g, k: Kind :: g in fileAt ==> ObjChain(g.Head(k), fileAt[g].Of(k).nodes)
    ensures FilesHold(fileAt[f := rec])
    ensures forall g, k: Kind :: g in fileAt[f := rec] ==> ObjChain(g.Head(k), fileAt[f := rec][g].Of(k).nodes)
  {
    assert forall k: Kind :: rec.Of(k) == fileAt[f].Of(k);
  }

  /** A new record in front of the list of files keeps the lists of all others. */
  lemma LinkedFile(r: Reg<FileInfo, ObjInfo>, r': Reg<FileInfo, ObjInfo>, f: FileInfo)
    requires WellLinked(r) && FileChain(f.next, r.files) && f !in r.files && FilesHold(r.fileAt) && f !in r.fileAt
    requires forall g, k: Kind :: g in r.fileAt ==> ObjChain(g.Head(k), r.fileAt[g].Of(k).nodes)
    requires f.Mirrors(NewFile(f.fileNo).(refCnt := 1)) && forall k: Kind :: f.Head(k) == null
    requires r'.files == [f] + r.files && r'.objAt == r.objAt
    requires r'.fileAt == r.fileAt[f := NewFile(f.fileNo).(refCnt := 1)]
    ensures WellLinked(r') && FileChain(f, r'.files) && FilesHold(r'.fileAt)
    ensures forall g, k: Kind :: g in r'.fileAt ==> ObjChain(g.Head(k), r'.fileAt[g].Of(k).nodes)
  {
    LinkedShape(r, r', f);
    FileChainPush(f, r.files);
    NewFileHolds(r.fileAt, f);
  }

  lemma LinkedShape<F, O>(r: Reg<F, O>, r': Reg<F, O>, f: F)
    requires WellLinked(r) && f !in r.files && f !in r.fileAt
    requires r'.files == [f] + r.files && r'.objAt == r.objAt && f in r'.fileAt
    requires r'.fileAt == r.fileAt[f := NewFile(r'.fileAt[f].fileNo).(refCnt := 1)]
    ensures WellLinked(r')
  {
    FileStepLists(r, r');
    ListedIsLive(r');
  }

  lemma FewerHold(fileAt: map<FileInfo, FileRec<ObjInfo>>, f: FileInfo)
    requires FilesHold(fileAt)
    requires forall g, k: Kind :: g in fileAt ==> ObjChain(g.Head(k), fileAt[g].Of(k).nodes)
    ensures FilesHold(fileAt - {f})
    ensures forall g, k: Kind :: g in fileAt - {f} ==> ObjChain(g.Head(k), (fileAt - {f})[g].Of(k).nodes)
  {
  }

  lemma NewFileHolds(fileAt: map<FileInfo, FileRec<ObjInfo>>, f: FileInfo)
    requires FilesHold(fileAt) && f !in fileAt
    requires forall g, k: Kind :: g in fileAt ==> ObjChain(g.Head(k), fileAt[g].Of(k).nodes)
    requires f.Mirrors(NewFile(f.fileNo).(refCnt := 1)) && forall k: Kind :: f.Head(k) == null
    ensures var grown := fileAt[f := NewFile(f.fileNo).(refCnt := 1)];
            FilesHold(grown) && forall g, k: Kind :: g in grown ==> ObjChain(g.Head(k), grown[g].Of(k).nodes)
  {
  }

  lemma FileChainPush(f: FileInfo, files: seq<FileInfo>)
    requires FileChain(f.next, files) && f !in files
    ensures FileChain(f, [f] + files)
  {
  }

  lemma FileIndexIs<F, O>(r: Reg<F, O>, no: nat, i: nat)
    requires r.FilesLive() && i <= |r.files|
    requires forall j :: 0 <= j < i ==> r.fileAt[r.files[j]].fileNo != no
    requires i < |r.files| ==> r.fileAt[r.files[i]].fileNo == no
    ensures FileIndex(r.files, r.fileAt, no) == i
  {
  }
}
