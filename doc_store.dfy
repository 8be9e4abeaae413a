/** Cloud Firestore as the routers use it: documents addressed by a path of
    alternating collection and document ids, read with `get()`, written with
    `set()`, `update()` and `delete()`, and listed with `stream()`. The
    order in which `stream()` yields documents is not specified, so it is
    left open: any listing that holds each document of the collection once
    is allowed. Every call is appended to `ops`, so that a handler's
    contract can say which calls it made. */
module DocStore {
  import opened Values

  /** `db.collection(a).document(b).collection(c)...` as the list of ids. */
  type Path = seq<string>

  datatype Op =
    | GetOp(path: Path)
    | SetOp(path: Path, data: Record)
    | UpdateOp(path: Path, fields: Record)
    | DeleteOp(path: Path)
    | StreamOp(collection: Path)

  /** Whether the operation writes. */
  predicate IsWrite(op: Op)
  {
    op.SetOp? || op.UpdateOp? || op.DeleteOp?
  }

  /** The ids of the documents directly inside collection `coll`. */
  function Children(docs: map<Path, Record>, coll: Path): set<string>
  {
    set p | p in docs && |p| == |coll| + 1 && p[..|coll|] == coll :: p[|coll|]
  }

  /** `ds` is a possible result of streaming `coll`: each document directly
      in the collection, once, with its current data. */
  ghost predicate IsListing(docs: map<Path, Record>, coll: Path, ds: seq<Doc>)
  {
    && (forall k :: 0 <= k < |ds| ==> coll + [ds[k].id] in docs && docs[coll + [ds[k].id]] == ds[k].data)
    && (forall k, l :: 0 <= k < l < |ds| ==> ds[k].id != ds[l].id)
    && (forall id :: id in Children(docs, coll) ==> exists k :: 0 <= k < |ds| && ds[k].id == id)
  }

  /** `p` names a document directly in collection `coll`. */
  predicate InCollection(p: Path, coll: Path)
  {
    |p| == |coll| + 1 && p[..|coll|] == coll
  }

  /** The documents directly in collection `coll` are the same in both
      stores. */
  ghost predicate SameCollection(before: map<Path, Record>, after: map<Path, Record>, coll: Path)
  {
    forall p :: InCollection(p, coll) ==> (p in before <==> p in after) && (p in before ==> before[p] == after[p])
  }

  /** A listing taken after writes that left the collection alone is a
      listing of the collection as it was before them. */
  lemma ListingOfSame(before: map<Path, Record>, after: map<Path, Record>, coll: Path, ds: seq<Doc>)
    requires SameCollection(before, after, coll) && IsListing(after, coll, ds)
    ensures IsListing(before, coll, ds)
  {
    forall k | 0 <= k < |ds|
      ensures coll + [ds[k].id] in before && before[coll + [ds[k].id]] == ds[k].data
    {
      assert (coll + [ds[k].id])[..|coll|] == coll;
      assert InCollection(coll + [ds[k].id], coll);
    }
    forall id | id in Children(before, coll)
      ensures id in Children(after, coll)
    {
      var p :| p in before && |p| == |coll| + 1 && p[..|coll|] == coll && p[|coll|] == id;
      assert InCollection(p, coll);
    }
  }

  lemma SameCollectionTrans(a: map<Path, Record>, b: map<Path, Record>, c: map<Path, Record>, coll: Path)
    requires SameCollection(a, b, coll) && SameCollection(b, c, coll)
    ensures SameCollection(a, c, coll)
  {
  }

  class Firestore {
    var docs: map<Path, Record>
    var ops: seq<Op>

    constructor (docs: map<Path, Record>)
      ensures this.docs == docs && ops == []
    {
      this.docs := docs;
      ops := [];
    }

    /** `ref.get()`: the document's data when it exists. */
    method Get(path: Path) returns (r: Option<Record>)
      modifies this
      ensures r == (if path in docs then Some(docs[path]) else None)
      ensures docs == old(docs) && ops == old(ops) + [GetOp(path)]
    {
      ops := ops + [GetOp(path)];
      r := if path in docs then Some(docs[path]) else None;
    }

    /** `ref.set(data)`: the document is created or replaced as a whole. */
    method Set(path: Path, data: Record)
      modifies this
      ensures docs == old(docs)[path := data] && ops == old(ops) + [SetOp(path, data)]
    {
      ops := ops + [SetOp(path, data)];
      docs := docs[path := data];
    }

    /** `ref.update(fields)`: the given fields are replaced and the others
        kept; updating a document that does not exist fails with NotFound
        and changes nothing. */
    method Update(path: Path, fields: Record) returns (r: Outcome<string>)
      modifies this
      ensures path in old(docs) ==> r == Pass && docs == old(docs)[path := old(docs)[path] + fields]
      ensures path !in old(docs) ==> r == Fail("No document to update") && docs == old(docs)
      ensures ops == old(ops) + [UpdateOp(path, fields)]
    {
      ops := ops + [UpdateOp(path, fields)];
      if path in docs {
        docs := docs[path := docs[path] + fields];
        r := Pass;
      } else {
        r := Fail("No document to update");
      }
    }

    /** `ref.delete()`: deleting a document that does not exist is not an
        error. Sub-collections are left in place. */
    method Delete(path: Path)
      modifies this
      ensures docs == old(docs) - {path} && ops == old(ops) + [DeleteOp(path)]
    {
      ops := ops + [DeleteOp(path)];
      docs := docs - {path};
    }

    /** `collection.stream()`: the documents of the collection, in an order
        the model leaves open. */
    method Stream(coll: Path) returns (ds: seq<Doc>)
      modifies this
      ensures IsListing(docs, coll, ds)
      ensures docs == old(docs) && ops == old(ops) + [StreamOp(coll)]
    {
      ops := ops + [StreamOp(coll)];
      var pending := Children(docs, coll);
      ds := [];
      while pending != {}
        invariant pending <= Children(docs, coll)
        invariant forall k :: 0 <= k < |ds| ==> coll + [ds[k].id] in docs && docs[coll + [ds[k].id]] == ds[k].data
        invariant forall k, l :: 0 <= k < l < |ds| ==> ds[k].id != ds[l].id
        invariant forall k :: 0 <= k < |ds| ==> ds[k].id !in pending
        invariant forall id :: id in Children(docs, coll) ==> id in pending || exists k :: 0 <= k < |ds| && ds[k].id == id
        decreases pending
      {
        var id :| id in pending;
        var p :| p in docs && |p| == |coll| + 1 && p[..|coll|] == coll && p[|coll|] == id;
        assert p == coll + [id];
        var prev := ds;
        ds := ds + [Doc(id, docs[p])];
        pending := pending - {id};
        forall x | x in Children(docs, coll)
          ensures x in pending || exists k :: 0 <= k < |ds| && ds[k].id == x
        {
          if x == id {
            assert ds[|ds| - 1].id == x;
          } else if x !in pending {
            var k :| 0 <= k < |prev| && prev[k].id == x;
            assert ds[k].id == x;
          }
        }
      }
    }
  }

  /** The documents of a listing as records, each with its document id
      stored under `field` (replacing any stored value of that name), in
      listing order. */
  function Tagged(ds: seq<Doc>, field: string): (rs: seq<Record>)
    ensures |rs| == |ds|
    ensures forall k :: 0 <= k < |ds| ==> rs[k] == ds[k].data[field := Str(ds[k].id)]
  {
    if ds == [] then [] else [ds[0].data[field := Str(ds[0].id)]] + Tagged(ds[1..], field)
  }

  /** The listing loop of the routers: `data = doc.to_dict()`, the id put
      under `field`, and the record appended. */
  method WithIds(ds: seq<Doc>, field: string) returns (rs: seq<Record>)
    ensures rs == Tagged(ds, field)
  {
    rs := [];
    var i := 0;
    while i < |ds|
      invariant 0 <= i <= |ds|
      invariant |rs| == i
      invariant forall k :: 0 <= k < i ==> rs[k] == ds[k].data[field := Str(ds[k].id)]
    {
      var data := ds[i].data;
      data := data[field := Str(ds[i].id)];
      rs := rs + [data];
      i := i + 1;
    }
  }

  /** A listing holds exactly the documents of the collection. */
  lemma ListingIds(docs: map<Path, Record>, coll: Path, ds: seq<Doc>, id: string)
    requires IsListing(docs, coll, ds)
    ensures (exists k :: 0 <= k < |ds| && ds[k].id == id) <==> coll + [id] in docs
  {
    if coll + [id] in docs {
      var p := coll + [id];
      assert p[..|coll|] == coll;
      assert id in Children(docs, coll);
    }
  }

  /** Every record of a tagged listing names a document of the collection
      under `field`, and every document of the collection is named by some
      record. */
  lemma TaggedIds(docs: map<Path, Record>, coll: Path, ds: seq<Doc>, field: string, id: string)
    requires IsListing(docs, coll, ds)
    ensures (exists k :: 0 <= k < |ds| && Tagged(ds, field)[k][field] == Str(id)) <==> coll + [id] in docs
  {
    ListingIds(docs, coll, ds, id);
    if exists k :: 0 <= k < |ds| && ds[k].id == id {
      var k :| 0 <= k < |ds| && ds[k].id == id;
      assert Tagged(ds, field)[k][field] == Str(id);
    }
  }
}
