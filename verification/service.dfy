/**
 * ProductService: searchProducts asks the upstream API, normalizes every item
 * of a non-empty answer, saves each record to the store and returns them all
 * in upstream order; on any failure or empty answer it returns the store's
 * own keyword search instead. getProductById reads one row.
 *
 * The HTTP exchange and JSON parsing are inputs (Exchange); the store is the
 * map `rows` with an uninterpreted keyword search.
 */
module Service {
  import opened Wrappers
  import opened Records
  import opened Identifier
  import opened Normalizer
  import opened Store

  /** The node found at body.items of the parsed response. */
  datatype ItemsNode = Missing | NotArray | Elements(items: seq<Item>)

  /** A response body: text the JSON reader rejects, or a JSON document. */
  datatype Payload = Unparseable | Json(items: ItemsNode)

  /** The GET exchange: an exception, or a response with a status and a possibly null body. */
  datatype Exchange = Threw | Responded(status: int, body: Option<Payload>)

  /** The one failure getProductById reports to its caller. */
  datatype Error = NotFound(id: int)

  /** ProductMapper.searchProducts on a table; None when the mapper throws. */
  type KeywordSearch = (Rows, string) -> Option<seq<Product>>

  /** One clock reading per parsed item: item i of a response reads clock(i). */
  type Clock = nat -> Long

  /** A Java long. */
  type Long = x: int | -0x8000_0000_0000_0000 <= x < 0x8000_0000_0000_0000

  /** The outcome of a search: what the caller gets and what the table holds afterwards. */
  datatype SearchState = SearchState(results: seq<ProductDto>, rows: Rows)

  predicate Is2xx(status: int) { 200 <= status <= 299 }

  /** The items searchProducts processes, or None when it falls back to the store. */
  function UpstreamItems(ex: Exchange): (r: Option<seq<Item>>)
    ensures r.Some? <==> && ex.Responded? && Is2xx(ex.status) && ex.body.Some?
                         && ex.body.value.Json? && ex.body.value.items.Elements?
                         && |ex.body.value.items.items| > 0
    ensures r.Some? ==> r.value == ex.body.value.items.items
  {
    match ex
    case Responded(status, Some(Json(Elements(items)))) =>
      if Is2xx(status) && |items| > 0 then Some(items) else None
    case _ => None
  }

  /** The records of a list of items: one per item, in the same order. */
  function ParseAll(items: seq<Item>, clock: Clock): (ds: seq<ProductDto>)
    ensures |ds| == |items|
    ensures forall i :: 0 <= i < |items| ==> ds[i] == ParseProductFromJson(items[i], clock(i))
  {
    if items == [] then []
    else ParseAll(items[..|items| - 1], clock) + [ParseProductFromJson(items[|items| - 1], clock(|items| - 1))]
  }

  /** Parsing one more item appends its record. */
  lemma ParseAllSnoc(items: seq<Item>, clock: Clock, i: nat)
    requires i < |items|
    ensures ParseAll(items[..i + 1], clock) == ParseAll(items[..i], clock) + [ParseProductFromJson(items[i], clock(i))]
  {
    assert items[..i + 1][..i] == items[..i];
  }

  /** searchProductsFromDb on the mapper's answer: the found rows as records, or [] when the mapper threw. */
  function FromDb(found: Option<seq<Product>>): (r: seq<ProductDto>)
    ensures found.None? ==> r == []
    ensures found.Some? ==> |r| == |found.value|
    ensures found.Some? ==> forall i :: 0 <= i < |r| ==> ConvertToEntity(r[i]) == found.value[i]
  {
    match found
    case None => []
    case Some(ps) => seq(|ps|, i requires 0 <= i < |ps| => ConvertToDto(ps[i]))
  }

  /** The reference behaviour of searchProducts. */
  function Search(rows: Rows, search: KeywordSearch, keyword: string, ex: Exchange, clock: Clock): (s: SearchState)
    ensures UpstreamItems(ex).None? ==> s == SearchState(FromDb(search(rows, keyword)), rows)
    ensures UpstreamItems(ex).Some? ==>
              && |s.results| == |UpstreamItems(ex).value|
              && (forall i :: 0 <= i < |s.results| ==>
                    s.results[i] == ParseProductFromJson(UpstreamItems(ex).value[i], clock(i)))
              && s.rows == SaveAll(rows, s.results)
  {
    match UpstreamItems(ex)
    case None => SearchState(FromDb(search(rows, keyword)), rows)
    case Some(items) =>
      var ds := ParseAll(items, clock);
      SearchState(ds, SaveAll(rows, ds))
  }

  /**
   * Every failure or empty answer returns the store's keyword search and
   * leaves the table alone: an exception, a non-2xx status, a null body, an
   * unparseable body, items missing, items not an array, items empty.
   */
  lemma SearchFallsBack(rows: Rows, search: KeywordSearch, keyword: string, ex: Exchange, clock: Clock)
    requires || ex == Threw
             || (ex.Responded? && !Is2xx(ex.status))
             || (ex.Responded? && ex.body in {None, Some(Unparseable), Some(Json(Missing)),
                                              Some(Json(NotArray)), Some(Json(Elements([])))})
    ensures Search(rows, search, keyword, ex, clock) == SearchState(FromDb(search(rows, keyword)), rows)
    ensures search(rows, keyword).None? ==> Search(rows, search, keyword, ex, clock).results == []
  {
  }

  /**
   * Records whose identifier is zero are returned like any other but never
   * stored: a response holding the single item {"PRDLST_REPORT_NO":"No. 0"}
   * returns one record, with identifier 0, and leaves the table unchanged.
   */
  lemma ZeroIdReturnedNotStored(rows: Rows, search: KeywordSearch, keyword: string, clock: Clock)
    ensures var s := Search(rows, search, keyword,
                            Responded(200, Some(Json(Elements([map[ReportNoKey := "No. 0"]])))), clock);
            |s.results| == 1 && s.results[0].prdId == 0 && s.rows == rows
  {
    var items: seq<Item> := [map[ReportNoKey := "No. 0"]];
    ZeroRegistrationExample(clock(0));
    var ex := Responded(200, Some(Json(Elements(items))));
    assert UpstreamItems(ex) == Some(items);
    var ds := ParseAll(items, clock);
    assert ds[0].prdId == 0;
    assert ds[..0] == [];
    assert SaveAll(rows, ds) == Upsert(SaveAll(rows, []), ds[0]);
  }

  /** Every item of the answer has a registration number that reads as a long, so no fallback identifier is drawn. */
  predicate AllRegistrationsParse(ex: Exchange)
  {
    UpstreamItems(ex).Some? ==>
      forall i :: 0 <= i < |UpstreamItems(ex).value| ==>
        ParseLong(Digits(TextOrEmpty(UpstreamItems(ex).value[i], ReportNoKey))).Some?
  }

  /**
   * Running the same search twice against the same answer, each run with its
   * own clock, leaves the table as after the first run and returns the same
   * records, provided no item needs a fallback identifier: the second run
   * updates rows, it never adds one.
   */
  lemma SearchStoreIdempotent(rows: Rows, search: KeywordSearch, keyword: string, ex: Exchange,
                              c1: Clock, c2: Clock)
    requires AllRegistrationsParse(ex)
    ensures var first := Search(rows, search, keyword, ex, c1);
            var second := Search(first.rows, search, keyword, ex, c2);
            second.rows == first.rows
            && (UpstreamItems(ex).Some? ==> second.results == first.results)
  {
    if UpstreamItems(ex).Some? {
      var items := UpstreamItems(ex).value;
      assert ParseAll(items, c1) == ParseAll(items, c2);
      SaveAllIdempotent(rows, ParseAll(items, c1));
    }
  }

  /**
   * Without a parseable registration number the repeat is not idempotent:
   * an answer of one item whose fallback identifier differs between two
   * clock readings stores that item under one identifier and, searched
   * again, under a second one. `NameOnlyIdentifier` gives an instance: the
   * item {"PRDLST_NM":"A"} (hash code 65) at clock 0 and then clock 1,
   * into an empty table, stores identifier 65 and then adds 66.
   */
  lemma FallbackItemReinserted(rows: Rows, search: KeywordSearch, keyword: string, ex: Exchange,
                               item: Item, c1: Clock, c2: Clock)
    requires UpstreamItems(ex) == Some([item])
    requires ParseProductFromJson(item, c1(0)).prdId != 0 && ParseProductFromJson(item, c2(0)).prdId != 0
    ensures var id1 := ParseProductFromJson(item, c1(0)).prdId;
            var id2 := ParseProductFromJson(item, c2(0)).prdId;
            var first := Search(rows, search, keyword, ex, c1);
            var second := Search(first.rows, search, keyword, ex, c2);
            first.rows.Keys == rows.Keys + {id1} && second.rows.Keys == rows.Keys + {id1, id2}
  {
    SearchOneItem(rows, search, keyword, ex, c1, item);
    var first := Search(rows, search, keyword, ex, c1);
    SearchOneItem(first.rows, search, keyword, ex, c2, item);
  }

  /** An answer of exactly one item stores that item's record alone. */
  lemma SearchOneItem(rows: Rows, search: KeywordSearch, keyword: string, ex: Exchange, clock: Clock, item: Item)
    requires UpstreamItems(ex) == Some([item])
    ensures Search(rows, search, keyword, ex, clock).rows == Upsert(rows, ParseProductFromJson(item, clock(0)))
  {
    var d := ParseProductFromJson(item, clock(0));
    assert ParseAll([item], clock) == [d];
    SaveAllSnoc(rows, [], d);
    assert [] + [d] == [d];
  }

  /** The item {"PRDLST_NM":"A"} takes the fallback identifier 65 + millis for small clock readings. */
  lemma NameOnlyIdentifier(millis: int)
    requires 0 <= millis <= 1
    ensures ParseProductFromJson(map[NameKey := "A"], millis).prdId == 65 + millis
  {
    NameOnlyTexts();
    HashOfA();
    assert Digits("") == [];
    assert WrapLong(65 + millis) == 65 + millis;
  }

  /** The item {"PRDLST_NM":"A"} has no registration number and the name "A". */
  lemma NameOnlyTexts()
    ensures TextOrEmpty(map[NameKey := "A"], ReportNoKey) == ""
    ensures TextOrEmpty(map[NameKey := "A"], NameKey) == "A"
  {
    assert |ReportNoKey| != |NameKey|;
  }

  /** Java's "A".hashCode() is the code of 'A', 65. */
  lemma HashOfA()
    ensures JavaHashCode("A") == 65
  {
    assert "A"[..0] == "";
  }

  /**
   * A search keeps the table keyed by identifier with no row under 0, grows
   * it by at most one row per upstream item, and removes no row.
   */
  lemma SearchKeepsStoreInvariant(rows: Rows, search: KeywordSearch, keyword: string, ex: Exchange, clock: Clock)
    requires KeyedById(rows) && 0 !in rows
    ensures var s := Search(rows, search, keyword, ex, clock);
            KeyedById(s.rows) && 0 !in s.rows && rows.Keys <= s.rows.Keys
            && |s.rows| <= |rows| + |s.results|
  {
    var s := Search(rows, search, keyword, ex, clock);
    if UpstreamItems(ex).Some? {
      SaveAllGrowth(rows, s.results);
    }
  }

  /**
   * After an answered search, the row under a returned record's non-zero
   * identifier, read back as getProductById does, is that record with all
   * ten fields, provided no later item of the answer had the same identifier.
   */
  lemma SearchThenLookup(rows: Rows, search: KeywordSearch, keyword: string, ex: Exchange, clock: Clock, i: int)
    requires UpstreamItems(ex).Some?
    requires var s := Search(rows, search, keyword, ex, clock);
             0 <= i < |s.results| && s.results[i].prdId != 0
             && forall j :: i < j < |s.results| ==> s.results[j].prdId != s.results[i].prdId
    ensures var s := Search(rows, search, keyword, ex, clock);
            s.results[i].prdId in s.rows && ConvertToDto(s.rows[s.results[i].prdId]) == s.results[i]
  {
    var s := Search(rows, search, keyword, ex, clock);
    LastWrittenIsStored(rows, s.results, i);
  }

  class ProductService {
    /** The table behind ProductMapper. */
    var rows: Rows
    /** ProductMapper.searchProducts; its matching rule is not part of this model. */
    const search: KeywordSearch

    /** Rows sit under their own identifier and none under 0. */
    ghost predicate Valid()
      reads this
    {
      KeyedById(rows) && 0 !in rows
    }

    constructor (initial: Rows, search: KeywordSearch)
      requires KeyedById(initial) && 0 !in initial
      ensures Valid()
      ensures rows == initial && this.search == search
    {
      rows := initial;
      this.search := search;
    }

    /** getProductById: NotFound when the identifier has no row, else the row as a record. */
    method GetProductById(id: int) returns (r: Result<ProductDto, Error>)
      requires Valid()
      ensures r.Failure? <==> id !in rows
      ensures r.Failure? ==> r.error == NotFound(id)
      ensures r.Success? ==> r.value.prdId == id && ConvertToEntity(r.value) == rows[id]
    {
      if id !in rows {
        return Failure(NotFound(id));
      }
      r := Success(ConvertToDto(rows[id]));
    }

    /** searchProductsFromDb: the mapper's matches as records, in its order; [] when it throws. */
    method SearchProductsFromDb(keyword: string) returns (r: seq<ProductDto>)
      ensures r == FromDb(search(rows, keyword))
    {
      var found := search(rows, keyword);
      r := FromDb(found);
    }

    /** saveProductToDb: skip identifier 0, else insert when absent and overwrite when present. */
    method SaveProductToDb(d: ProductDto)
      requires Valid()
      modifies this
      ensures Valid()
      ensures rows == Upsert(old(rows), d)
    {
      if d.prdId == 0 {
        return;
      }
      if d.prdId !in rows {
        // insertProduct
        rows := rows[d.prdId := ConvertToEntity(d)];
      } else {
        // updateProduct: every field is replaced
        rows := rows[d.prdId := ConvertToEntity(d)];
      }
    }

    /**
     * searchProducts: `ex` is what the GET exchange and JSON reading produced,
     * `clock` the time readings a fallback identifier would use.
     */
    method SearchProducts(keyword: string, ex: Exchange, clock: Clock) returns (results: seq<ProductDto>)
      requires Valid()
      modifies this
      ensures Valid()
      ensures SearchState(results, rows) == Search(old(rows), search, keyword, ex, clock)
    {
      if ex.Threw? {
        // an exception escaped the exchange
        results := SearchProductsFromDb(keyword);
        return;
      }
      if !Is2xx(ex.status) || ex.body.None? {
        results := SearchProductsFromDb(keyword);
        return;
      }
      if ex.body.value.Unparseable? {
        // readTree threw
        results := SearchProductsFromDb(keyword);
        return;
      }
      var node := ex.body.value.items;
      if !node.Elements? || |node.items| == 0 {
        results := SearchProductsFromDb(keyword);
        return;
      }
      var items := node.items;
      assert UpstreamItems(ex) == Some(items);
      results := [];
      for i := 0 to |items|
        invariant Valid()
        invariant results == ParseAll(items[..i], clock)
        invariant rows == SaveAll(old(rows), results)
      {
        var d := ParseProductFromJson(items[i], clock(i));
        SaveProductToDb(d);
        ParseAllSnoc(items, clock, i);
        SaveAllSnoc(old(rows), results, d);
        results := results + [d];
      }
      assert items[..|items|] == items;
    }
  }
}
