/** When the registry's own assertions fire, and when freed records are used, for lists in any state. */
module RegistryFaults {
  import opened RegistrySpec

  /** add_file_node: an empty list with a count, or a node without a number before the one looked for. */
  lemma AddFileFaultsIff<F, O>(r: Reg<F, O>, no: nat, addr: F)
    requires r.FilesLive()
    ensures AddFile(r, no, addr).Fault? <==>
            || (r.files == [] && r.filesCnt != 0)
            || exists j :: 0 <= j < |r.files| && r.fileAt[r.files[j]].fileNo == 0
                           && forall i :: 0 <= i < j ==> r.fileAt[r.files[i]].fileNo != no
  {
  }

  /** rm_file_node: no list, no count or no number; or the node found has its last reference and a list of
      objects that is not empty by its count; or it brings the count to zero and not the list. */
  lemma RmFileFaultsIff<F, O>(r: Reg<F, O>, no: nat)
    requires r.FilesLive()
    ensures RmFile(r, no).Fault? <==>
            || r.files == [] || r.filesCnt == 0 || no == 0
            || exists j :: 0 <= j < |r.files| && r.fileAt[r.files[j]].fileNo == no
                           && (forall i :: 0 <= i < j ==> r.fileAt[r.files[i]].fileNo != no)
                           && LastFaults(r, r.fileAt[r.files[j]])
  {
    var i := FileIndex(r.files, r.fileAt, no);
    if i < |r.files| {
      assert r.fileAt[r.files[i]].fileNo == no;
    }
  }

  ghost predicate LastFaults<F, O>(r: Reg<F, O>, rec: FileRec<O>) {
    rec.refCnt == 1
    && (|| rec.datasets.cnt != 0 || rec.groups.cnt != 0 || rec.datatypes.cnt != 0 || rec.attributes.cnt != 0
        || (r.filesCnt == 1 && |r.files| != 1))
  }

  /** rm_*_node: the record is gone; or this was its last reference, and its file is gone, its list empty, or
      its list not down to nothing when the count is, or rm_file_node faults in its turn. */
  lemma RmObjFaultsIff<F, O>(r: Reg<F, O>, o: O)
    requires r.LinksLive()
    ensures RmObj(r, o).Fault? <==>
            || o !in r.objAt
            || (r.objAt[o].refCnt <= 1
                && (|| r.objAt[o].file !in r.fileAt
                    || r.fileAt[r.objAt[o].file].Of(r.objAt[o].kind).nodes == []
                    || FoundFaults(r, o)))
  {
    if o in r.objAt {
      var rec := r.objAt[o];
      var dropped := RecountedObj(r, o, -1);
      if rec.refCnt <= 1 && rec.file in r.fileAt {
        var nodes := r.fileAt[rec.file].Of(rec.kind).nodes;
        SameSearch(nodes, r.objAt, dropped.objAt, rec.token);
        var i := TokenIndex(nodes, r.objAt, rec.token);
        if i < |nodes| {
          assert Unlink(dropped, rec.file, rec.kind, i).files == r.files;
          assert r.objAt[nodes[i]].token == rec.token;
        }
      }
    }
  }

  /** The first node with an equal token is found, and what follows faults. */
  ghost predicate FoundFaults<F, O>(r: Reg<F, O>, o: O)
    requires r.LinksLive() && o in r.objAt && r.objAt[o].file in r.fileAt
  {
    var f, k := r.objAt[o].file, r.objAt[o].kind;
    var list := r.fileAt[f].Of(k);
    exists i :: 0 <= i < |list.nodes| && r.objAt[list.nodes[i]].token == r.objAt[o].token
                && (forall j :: 0 <= j < i ==> r.objAt[list.nodes[j]].token != r.objAt[o].token)
                && ((list.cnt == 1 && |list.nodes| != 1)
                    || RmFile(Unlink(RecountedObj(r, o, -1), f, k, i), r.fileAt[f].fileNo).Fault?)
  }

  lemma {:induction false} SameSearch<F, O>(nodes: seq<O>, at: map<O, ObjRec<F>>, at': map<O, ObjRec<F>>, token: nat)
    requires (forall o :: o in nodes ==> o in at && o in at' && at[o].token == at'[o].token)
    ensures TokenIndex(nodes, at, token) == TokenIndex(nodes, at', token)
  {
    if nodes != [] { SameSearch(nodes[1..], at, at', token); }
  }
}
