/** The registry of open HDF5 objects as a value: a memory of file and object records reached
    through addresses, the list of open files and, per file, the four lists of open objects.
    `F` and `O` are the addresses of file records and object records.

    A C assertion that fires, and a dereference of a freed record, give `Fault`. */
module RegistrySpec {
  import opened Results
  import opened DatasetStats

  datatype Kind = Dataset | Group | Datatype | Attribute

  /** One `opened_*` / `opened_*_cnt` pair; the head of the C list is `nodes[0]`. */
  datatype OpenList<O> = OpenList(nodes: seq<O>, cnt: int)

  datatype FileRec<O> = FileRec(fileNo: nat, refCnt: int,
                                datasets: OpenList<O>, groups: OpenList<O>,
                                datatypes: OpenList<O>, attributes: OpenList<O>)
  {
    function Of(k: Kind): OpenList<O> {
      match k
      case Dataset => datasets
      case Group => groups
      case Datatype => datatypes
      case Attribute => attributes
    }

    function With(k: Kind, l: OpenList<O>): FileRec<O> {
      match k
      case Dataset => this.(datasets := l)
      case Group => this.(groups := l)
      case Datatype => this.(datatypes := l)
      case Attribute => this.(attributes := l)
    }

    /** Number of object records linked from this file. */
    function Linked(): nat {
      |datasets.nodes| + |groups.nodes| + |datatypes.nodes| + |attributes.nodes|
    }
  }

  datatype ObjRec<F> = ObjRec(kind: Kind, file: F, token: nat, refCnt: int, stats: Stats)

  datatype Reg<!F, !O> = Reg(files: seq<F>, filesCnt: int,
                             fileAt: map<F, FileRec<O>>, objAt: map<O, ObjRec<F>>)
  {
    /** Every link of the file list leads to a live record. */
    ghost predicate FilesLive() {
      forall f :: f in files ==> f in fileAt
    }

    /** So does every link of the lists of open objects. */
    ghost predicate LinksLive() {
      && FilesLive()
      && (forall f, k: Kind, o :: f in fileAt && o in fileAt[f].Of(k).nodes ==> o in objAt)
    }
  }

  function NewFile<O>(no: nat): FileRec<O> {
    FileRec(no, 0, OpenList([], 0), OpenList([], 0), OpenList([], 0), OpenList([], 0))
  }

  function Without<T>(s: seq<T>, i: nat): (r: seq<T>)
    requires i < |s|
    ensures |r| == |s| - 1
    ensures forall j :: 0 <= j < i ==> r[j] == s[j]
    ensures forall j :: i <= j < |r| ==> r[j] == s[j + 1]
  {
    s[..i] + s[i + 1..]
  }

  /** Position of the first open file with number `no`, or the length of the list. */
  function FileIndex<F(==), O>(files: seq<F>, at: map<F, FileRec<O>>, no: nat): (i: nat)
    requires forall f :: f in files ==> f in at
    ensures i <= |files|
    ensures i < |files| ==> at[files[i]].fileNo == no
    ensures forall j :: 0 <= j < i ==> at[files[j]].fileNo != no
  {
    if files == [] || at[files[0]].fileNo == no then 0 else 1 + FileIndex(files[1..], at, no)
  }

  /** Position of the first node with an equal token, or the length of the list. */
  function TokenIndex<F, O(==)>(nodes: seq<O>, at: map<O, ObjRec<F>>, token: nat): (i: nat)
    requires forall o :: o in nodes ==> o in at
    ensures i <= |nodes|
    ensures i < |nodes| ==> at[nodes[i]].token == token
    ensures forall j :: 0 <= j < i ==> at[nodes[j]].token != token
  {
    if nodes == [] || at[nodes[0]].token == token then 0 else 1 + TokenIndex(nodes[1..], at, token)
  }

  /** The reference count of a file record moves by `d`. */
  function Recounted<F(==), O(==)>(r: Reg<F, O>, f: F, d: int): (r': Reg<F, O>)
    requires f in r.fileAt
    ensures r.LinksLive() ==> r'.LinksLive()
  {
    var rec := r.fileAt[f];
    var kept := rec.(refCnt := rec.refCnt + d);
    assert forall k: Kind :: kept.Of(k) == rec.Of(k);
    r.(fileAt := r.fileAt[f := kept])
  }

  /** `ref_cnt++` on a file record. */
  function Retain<F(==), O(==)>(r: Reg<F, O>, f: F): Reg<F, O>
    requires f in r.fileAt
  {
    Recounted(r, f, 1)
  }

  /** The reference count of an object record moves by `d`. */
  function RecountedObj<F(==), O(==)>(r: Reg<F, O>, o: O, d: int): Reg<F, O>
    requires o in r.objAt
  {
    r.(objAt := r.objAt[o := r.objAt[o].(refCnt := r.objAt[o].refCnt + d)])
  }

  /** The assertions of add_file_node hold on the way to the node with number `no`. */
  predicate AddFileAsserts<F(==), O>(r: Reg<F, O>, no: nat)
    requires r.FilesLive()
  {
    && (r.files == [] ==> r.filesCnt == 0)
    && (forall j :: 0 <= j < |r.files| && j <= FileIndex(r.files, r.fileAt, no) ==> r.fileAt[r.files[j]].fileNo != 0)
  }

  /** add_file_node: `addr` is the address calloc returns, used when no node has the number. */
  function AddFile<F(==), O(==)>(r: Reg<F, O>, no: nat, addr: F): Result<(Reg<F, O>, F)>
    requires r.FilesLive()
  {
    var i := FileIndex(r.files, r.fileAt, no);
    if !AddFileAsserts(r, no) then Fault
    else if i < |r.files| then Done((Retain(r, r.files[i]), r.files[i]))
    else
      Done((Reg([addr] + r.files, r.filesCnt + 1, r.fileAt[addr := NewFile(no).(refCnt := 1)], r.objAt),
            addr))
  }

  /** rm_file_node */
  function RmFile<F(==), O(==)>(r: Reg<F, O>, no: nat): Result<Reg<F, O>>
    requires r.FilesLive()
  {
    var i := FileIndex(r.files, r.fileAt, no);
    if r.files == [] || r.filesCnt == 0 || no == 0 then Fault
    else if i == |r.files| then Done(r)
    else
      var f := r.files[i];
      var dropped := Recounted(r, f, -1);
      var rec := dropped.fileAt[f];
      if rec.refCnt != 0 then Done(dropped)
      else if rec.datasets.cnt != 0 || rec.groups.cnt != 0 || rec.datatypes.cnt != 0 || rec.attributes.cnt != 0
      then Fault
      else
        var left := Without(r.files, i);
        if r.filesCnt - 1 == 0 && left != [] then Fault
        else Done(Reg(left, r.filesCnt - 1, r.fileAt - {f}, r.objAt))
  }

  /** add_grp_node, add_dtype_node, add_attr_node, and the list part of add_dataset_node. */
  function AddObj<F(==), O(==)>(r: Reg<F, O>, f: F, k: Kind, token: nat, stats: Stats, addr: O)
    : Result<(Reg<F, O>, O)>
    requires r.LinksLive()
  {
    if f !in r.fileAt then Fault
    else
      var list := r.fileAt[f].Of(k);
      var i := TokenIndex(list.nodes, r.objAt, token);
      if i < |list.nodes| then
        var o := list.nodes[i];
        Done((RecountedObj(r, o, 1), o))
      else
        Done((Link(Retain(r, f), f, k, token, stats, addr), addr))
  }

  /** A new object record in front of list `k` of file `f`. */
  function Link<F(==), O(==)>(r: Reg<F, O>, f: F, k: Kind, token: nat, stats: Stats, addr: O): Reg<F, O>
    requires f in r.fileAt
  {
    var list := r.fileAt[f].Of(k);
    r.(fileAt := r.fileAt[f := r.fileAt[f].With(k, OpenList([addr] + list.nodes, list.cnt + 1))],
       objAt := r.objAt[addr := ObjRec(k, f, token, 1, stats)])
  }

  /** The open file with number `no`, if there is one: what _search_home_file looks for. */
  function HomeOf<F(==), O(==)>(r: Reg<F, O>, no: nat): Option<F>
    requires r.FilesLive()
  {
    var i := FileIndex(r.files, r.fileAt, no);
    if r.filesCnt < 1 || i == |r.files| then None else Some(r.files[i])
  }

  /** Where add_dataset_node puts a dataset. One that lives in another file goes on that file's
      lists, after one more `ref_cnt++` there; when that file is not open, on those of a new record
      at address `dummy` which is in no list. */
  function DatasetHome<F(==), O(==)>(r: Reg<F, O>, upper: F, objFileNo: nat, dummy: F): (F, Reg<F, O>)
    requires r.FilesLive() && upper in r.fileAt
  {
    if objFileNo == r.fileAt[upper].fileNo then (upper, r)
    else match HomeOf(r, objFileNo)
         case Some(home) => (home, Retain(r, home))
         case None => (dummy, r.(fileAt := r.fileAt[dummy := NewFile(objFileNo)]))
  }

  /** add_dataset_node */
  function AddDataset<F(==), O(==)>(r: Reg<F, O>, upper: F, objFileNo: nat, token: nat, stats: Stats,
                                    addr: O, dummy: F): Result<(Reg<F, O>, O)>
    requires r.LinksLive()
  {
    if upper !in r.fileAt then Fault
    else
      var (file, held) := DatasetHome(r, upper, objFileNo, dummy);
      AddObj(held, file, Dataset, token, stats, addr)
  }

  /** rm_dataset_node, rm_grp_node, rm_dtype_node, rm_attr_node. The second result is the value
      returned: the references left, or -1 when no node has the token. */
  function RmObj<F(==), O(==)>(r: Reg<F, O>, o: O): Result<(Reg<F, O>, int)>
    requires r.LinksLive()
  {
    if o !in r.objAt then Fault
    else
      var dropped := RecountedObj(r, o, -1);
      var rec := dropped.objAt[o];
      if rec.refCnt > 0 then Done((dropped, rec.refCnt))
      else if rec.file !in r.fileAt || r.fileAt[rec.file].Of(rec.kind).nodes == [] then Fault
      else Dropped(dropped, rec, r.fileAt[rec.file].fileNo)
  }

  /** The search for an object without references by its token, and what follows when it is found. */
  function Dropped<F(==), O(==)>(r: Reg<F, O>, rec: ObjRec<F>, no: nat): Result<(Reg<F, O>, int)>
    requires r.LinksLive() && rec.file in r.fileAt
  {
    var list := r.fileAt[rec.file].Of(rec.kind);
    var i := TokenIndex(list.nodes, r.objAt, rec.token);
    if i == |list.nodes| then Done((r, -1))
    else if list.cnt - 1 == 0 && |list.nodes| != 1 then Fault
    else
      var closed :- RmFile(Unlink(r, rec.file, rec.kind, i), no);
      Done((closed, 0))
  }

  /** The node at position `i` of list `k` of file `f` is taken out and its record freed. */
  function Unlink<F(==), O(==)>(r: Reg<F, O>, f: F, k: Kind, i: nat): Reg<F, O>
    requires f in r.fileAt && i < |r.fileAt[f].Of(k).nodes|
  {
    var list := r.fileAt[f].Of(k);
    r.(fileAt := r.fileAt[f := r.fileAt[f].With(k, OpenList(Without(list.nodes, i), list.cnt - 1))],
       objAt := r.objAt - {list.nodes[i]})
  }
}
