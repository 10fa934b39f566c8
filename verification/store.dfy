/**
 * The record store as the pipeline sees it: a table of rows keyed by
 * product identifier, and saveProductToDb's effect on it.
 */
module Store {
  import opened Wrappers
  import opened Records

  type Rows = map<int, Product>

  /** Every row sits under its own identifier. */
  predicate KeyedById(rows: Rows)
  {
    forall k :: k in rows ==> rows[k].prdId == k
  }

  /**
   * The table after saveProductToDb(d): a record with identifier 0 is not
   * written; otherwise the row for its identifier is inserted when absent and
   * overwritten in full when present.
   */
  function Upsert(rows: Rows, d: ProductDto): (r: Rows)
    ensures d.prdId == 0 ==> r == rows
    ensures d.prdId != 0 ==> r.Keys == rows.Keys + {d.prdId} && r[d.prdId] == ConvertToEntity(d)
    ensures forall k :: k in rows && k != d.prdId ==> r[k] == rows[k]
    ensures |r| <= |rows| + 1
    ensures KeyedById(rows) ==> KeyedById(r)
  {
    if d.prdId == 0 then rows else rows[d.prdId := ConvertToEntity(d)]
  }

  /** Saving the same record twice leaves the table as saving it once. */
  lemma UpsertIdempotent(rows: Rows, d: ProductDto)
    ensures Upsert(Upsert(rows, d), d) == Upsert(rows, d)
  {
  }

  /** The non-zero identifiers carried by the records of ds. */
  function WrittenIds(ds: seq<ProductDto>): set<int>
  {
    set i | 0 <= i < |ds| && ds[i].prdId != 0 :: ds[i].prdId
  }

  /**
   * The table after saving the records of ds one after the other, in order:
   * no identifier is lost and the row under 0 is never touched.
   */
  function SaveAll(rows: Rows, ds: seq<ProductDto>): (r: Rows)
    ensures rows.Keys <= r.Keys
    ensures 0 in r <==> 0 in rows
    ensures 0 in rows ==> r[0] == rows[0]
  {
    if ds == [] then rows else Upsert(SaveAll(rows, ds[..|ds| - 1]), ds[|ds| - 1])
  }

  /** The batch with its identifier-0 records taken out, order kept. */
  function DropZeroIds(ds: seq<ProductDto>): (r: seq<ProductDto>)
    ensures |r| <= |ds|
    ensures forall i :: 0 <= i < |r| ==> r[i].prdId != 0
    ensures forall d :: d in r <==> d in ds && d.prdId != 0
  {
    if ds == [] then []
    else
      assert ds == ds[..|ds| - 1] + [ds[|ds| - 1]];
      if ds[|ds| - 1].prdId == 0 then DropZeroIds(ds[..|ds| - 1])
      else DropZeroIds(ds[..|ds| - 1]) + [ds[|ds| - 1]]
  }

  /** Records with identifier 0 have no effect on the table: saving a batch equals saving it without them. */
  lemma {:induction false} ZeroIdsNotStored(rows: Rows, ds: seq<ProductDto>)
    ensures SaveAll(rows, ds) == SaveAll(rows, DropZeroIds(ds))
  {
    if ds != [] {
      var p, d := ds[..|ds| - 1], ds[|ds| - 1];
      ZeroIdsNotStored(rows, p);
      if d.prdId != 0 {
        SaveAllSnoc(rows, DropZeroIds(p), d);
      }
    }
  }

  /** The last record of ds carrying the non-zero identifier k, if there is one. */
  function LastWrite(ds: seq<ProductDto>, k: int): (r: Option<ProductDto>)
    ensures r.Some? ==> k != 0 && r.value.prdId == k
    ensures r.Some? ==> exists i :: 0 <= i < |ds| && ds[i] == r.value
                                    && forall j :: i < j < |ds| ==> ds[j].prdId != k
    ensures r.None? ==> k == 0 || forall i :: 0 <= i < |ds| ==> ds[i].prdId != k
  {
    if ds == [] || k == 0 then None
    else if ds[|ds| - 1].prdId == k then Some(ds[|ds| - 1])
    else LastWrite(ds[..|ds| - 1], k)
  }

  /** Saving one more record is one more upsert. */
  lemma SaveAllSnoc(rows: Rows, ds: seq<ProductDto>, d: ProductDto)
    ensures SaveAll(rows, ds + [d]) == Upsert(SaveAll(rows, ds), d)
  {
    assert (ds + [d])[..|ds|] == ds;
  }

  /** What SaveAll leaves under each identifier: the last record written there, else the old row. */
  lemma {:induction false} SaveAllAt(rows: Rows, ds: seq<ProductDto>, k: int)
    ensures k in SaveAll(rows, ds) <==> k in rows || LastWrite(ds, k).Some?
    ensures k in SaveAll(rows, ds) ==>
              SaveAll(rows, ds)[k] == match LastWrite(ds, k)
                                       case Some(d) => ConvertToEntity(d)
                                       case None => rows[k]
  {
    if ds != [] {
      SaveAllAt(rows, ds[..|ds| - 1], k);
    }
  }

  /** A batch leaves exactly the old identifiers and the non-zero ones it carries. */
  lemma SaveAllKeys(rows: Rows, ds: seq<ProductDto>)
    ensures SaveAll(rows, ds).Keys == rows.Keys + WrittenIds(ds)
  {
    forall k ensures k in SaveAll(rows, ds) <==> k in rows || k in WrittenIds(ds) {
      SaveAllAt(rows, ds, k);
      if k in WrittenIds(ds) {
        var i :| 0 <= i < |ds| && ds[i].prdId != 0 && ds[i].prdId == k;
      }
    }
  }

  /** Saving a batch a second time changes nothing: every row it touches is overwritten, never duplicated. */
  lemma SaveAllIdempotent(rows: Rows, ds: seq<ProductDto>)
    ensures SaveAll(SaveAll(rows, ds), ds) == SaveAll(rows, ds)
  {
    var once := SaveAll(rows, ds);
    var twice := SaveAll(once, ds);
    forall k | k in once || k in twice
      ensures k in once && k in twice && twice[k] == once[k]
    {
      SaveAllAt(rows, ds, k);
      SaveAllAt(once, ds, k);
    }
    assert once.Keys == twice.Keys;
  }

  /** A batch keeps every old identifier, adds at most one row per record, and keeps rows keyed by identifier. */
  lemma {:induction false} SaveAllGrowth(rows: Rows, ds: seq<ProductDto>)
    ensures rows.Keys <= SaveAll(rows, ds).Keys
    ensures |SaveAll(rows, ds)| <= |rows| + |ds|
    ensures KeyedById(rows) ==> KeyedById(SaveAll(rows, ds))
  {
    if ds != [] {
      SaveAllGrowth(rows, ds[..|ds| - 1]);
    }
  }

  /**
   * A record with a non-zero identifier that no later record of the batch
   * shares is what the table holds under that identifier afterwards, all
   * ten fields as written.
   */
  lemma {:induction false} LastWrittenIsStored(rows: Rows, ds: seq<ProductDto>, i: int)
    requires 0 <= i < |ds| && ds[i].prdId != 0
    requires forall j :: i < j < |ds| ==> ds[j].prdId != ds[i].prdId
    ensures ds[i].prdId in SaveAll(rows, ds)
    ensures ConvertToDto(SaveAll(rows, ds)[ds[i].prdId]) == ds[i]
  {
    if i < |ds| - 1 {
      var p := ds[..|ds| - 1];
      assert p[i] == ds[i];
      LastWrittenIsStored(rows, p, i);
    }
  }
}
