/**
 The two-phase live listing: a cheap listing names the rows, a second call fetches previews
 for the supported ones, and the previews are put back into listing order.
*/
module LiveListing {
  import opened Options
  import opened Bounds
  import FindPaging

  const MAX_LIMIT := 100

  /** One element of an upstream reply. Empty text stands for an absent or empty field. */
  datatype Row =
    | NotAnObject
    | Record(ref: Option<string>, fileExtension: string, previewExtension: string, thumbnailUrl: string,
             details: string)

  /** An upstream reply: an object with a total and data, a bare list, or something else. */
  datatype Reply =
    | Paged(total: int, data: seq<Row>)
    | Bare(rows: seq<Row>)
    | Unusable

  datatype Asset = Asset(id: string, mimeType: string, thumbnailUrl: string, details: string)

  /** Which media types extensions (in any case) stand for, and which of them are supported. */
  datatype Formats = Formats(mimeOf: string -> string, supported: set<string>)

  datatype Listed =
    | UpstreamFailed
    | Page(items: seq<Asset>, total: int, scanned: nat)

  // ---------------------------------------------------------------- records

  function OnlyRecords(rows: seq<Row>): seq<Row> {
    if rows == [] then []
    else (if rows[0].Record? then [rows[0]] else []) + OnlyRecords(rows[1..])
  }

  /** The total counts a bare list before anything is dropped from it. */
  function SearchRecords(reply: Reply): (int, seq<Row>) {
    match reply
    case Paged(total, data) => (total, OnlyRecords(data))
    case Bare(rows) => (|rows|, OnlyRecords(rows))
    case Unusable => (0, [])
  }

  function MimeOf(f: Formats, r: Row): string
    requires r.Record?
  {
    f.mimeOf(if r.fileExtension != "" then r.fileExtension
             else if r.previewExtension != "" then r.previewExtension else "jpg")
  }

  predicate IsSupported(f: Formats, r: Row) {
    r.Record? && MimeOf(f, r) in f.supported
  }

  function BuildAsset(f: Formats, r: Row): Asset
    requires r.Record?
  {
    Asset(if r.ref.Some? then r.ref.value else "None", MimeOf(f, r), r.thumbnailUrl, r.details)
  }

  /** Refs to preview, in listing order. */
  function SupportedRefs(f: Formats, records: seq<Row>): seq<string> {
    if records == [] then []
    else (if IsSupported(f, records[0]) && records[0].ref.Some? then [records[0].ref.value] else [])
         + SupportedRefs(f, records[1..])
  }

  function Normalize(f: Formats, records: seq<Row>): seq<Asset> {
    if records == [] then []
    else (if IsSupported(f, records[0]) && records[0].thumbnailUrl != "" then [BuildAsset(f, records[0])] else [])
         + Normalize(f, records[1..])
  }

  /** A dictionary built from a list: a later entry replaces an earlier one. */
  function ById(assets: seq<Asset>): map<string, Asset> {
    if assets == [] then map[]
    else ById(assets[..|assets| - 1])[assets[|assets| - 1].id := assets[|assets| - 1]]
  }

  function InListingOrder(refs: seq<string>, byId: map<string, Asset>): seq<Asset> {
    if refs == [] then []
    else (if refs[0] in byId then [byId[refs[0]]] else []) + InListingOrder(refs[1..], byId)
  }

  /** `previews` is what upstream answers to the second call for these refs. */
  function ListLiveAssets(f: Formats, listing: Reply, previews: seq<string> -> Reply): Listed {
    if listing.Unusable? then UpstreamFailed
    else
      var (total, records) := SearchRecords(listing);
      var refs := SupportedRefs(f, records);
      if refs == [] then Page([], total, |records|)
      else
        var reply := previews(refs);
        if reply.Unusable? then UpstreamFailed
        else Page(InListingOrder(refs, ById(Normalize(f, SearchRecords(reply).1))), total, |records|)
  }

  // ---------------------------------------------------------------- which previews count

  /** A preview record that can become an item for `ref`. */
  predicate Shows(f: Formats, r: Row, ref: string) {
    IsSupported(f, r) && r.thumbnailUrl != "" && BuildAsset(f, r).id == ref
  }

  /** The last record of a preview reply that can become an item for `ref`. */
  function LastUsable(f: Formats, records: seq<Row>, ref: string): (r: Option<Row>)
    ensures r.None? <==> forall k :: 0 <= k < |records| ==> !Shows(f, records[k], ref)
    ensures r.Some? ==> exists k :: 0 <= k < |records| && records[k] == r.value && Shows(f, records[k], ref)
                                    && forall m :: k < m < |records| ==> !Shows(f, records[m], ref)
  {
    if records == [] then None
    else
      var n := |records| - 1;
      if Shows(f, records[n], ref) then Some(records[n]) else LastUsable(f, records[..n], ref)
  }

  /** The record each ref is shown with, by what upstream answered for these refs. */
  function ShownRecords(f: Formats, reply: Reply, refs: seq<string>): map<string, Row> {
    var records := SearchRecords(reply).1;
    map ref | ref in refs && LastUsable(f, records, ref).Some? :: LastUsable(f, records, ref).value
  }

  /** For each ref asked for, the last usable record in the reply is that of `table`, or there is
      none and the table has none. The order of the reply, earlier records for the same ref and
      rows for other refs are free. */
  ghost predicate Answers(f: Formats, reply: Reply, refs: seq<string>, table: map<string, Row>) {
    && (refs != [] ==> !reply.Unusable?)
    && forall ref :: ref in refs ==>
         LastUsable(f, SearchRecords(reply).1, ref)
         == if ref in table && Shows(f, table[ref], ref) then Some(table[ref]) else None
  }

  lemma {:induction false} NormalizeConcat(f: Formats, a: seq<Row>, b: seq<Row>)
    ensures Normalize(f, a + b) == Normalize(f, a) + Normalize(f, b)
    decreases |a|
  {
    if a == [] {
      assert a + b == b;
    } else {
      assert (a + b)[1..] == a[1..] + b;
      NormalizeConcat(f, a[1..], b);
    }
  }

  lemma NormalizeOne(f: Formats, r: Row)
    ensures Normalize(f, [r]) == if IsSupported(f, r) && r.thumbnailUrl != "" then [BuildAsset(f, r)] else []
  {
    assert [r][1..] == [];
  }

  lemma NormalizeEnd(f: Formats, records: seq<Row>, r: Row)
    ensures Normalize(f, records + [r])
         == if IsSupported(f, r) && r.thumbnailUrl != "" then Normalize(f, records) + [BuildAsset(f, r)]
            else Normalize(f, records)
  {
    NormalizeConcat(f, records, [r]);
    NormalizeOne(f, r);
  }

  lemma ByIdEnd(assets: seq<Asset>, a: Asset)
    ensures ById(assets + [a]) == ById(assets)[a.id := a]
  {
    assert (assets + [a])[..|assets|] == assets;
  }

  lemma LastUsableEnd(f: Formats, records: seq<Row>, r: Row, ref: string)
    ensures LastUsable(f, records + [r], ref) == if Shows(f, r, ref) then Some(r) else LastUsable(f, records, ref)
  {
    assert (records + [r])[..|records|] == records;
  }

  ghost predicate KeepsTheLast(f: Formats, records: seq<Row>, ref: string) {
    var byId, last := ById(Normalize(f, records)), LastUsable(f, records, ref);
    if last.Some? then ref in byId && byId[ref] == BuildAsset(f, last.value) else ref !in byId
  }

  lemma KeepsTheLastEnd(f: Formats, records: seq<Row>, r: Row, ref: string)
    requires KeepsTheLast(f, records, ref)
    ensures KeepsTheLast(f, records + [r], ref)
  {
    hide Normalize, ById, LastUsable;
    NormalizeEnd(f, records, r);
    LastUsableEnd(f, records, r, ref);
    if IsSupported(f, r) && r.thumbnailUrl != "" { ByIdEnd(Normalize(f, records), BuildAsset(f, r)); }
  }

  /** The dictionary of previews keeps, for each ref, the last usable record. */
  lemma {:induction false} ByIdKeepsTheLast(f: Formats, records: seq<Row>, ref: string)
    ensures KeepsTheLast(f, records, ref)
    decreases |records|
  {
    if records != [] {
      var n := |records| - 1;
      ByIdKeepsTheLast(f, records[..n], ref);
      KeepsTheLastEnd(f, records[..n], records[n], ref);
      assert records == records[..n] + [records[n]];
    }
  }

  /** The item a listed row yields once its preview is looked up in `table`. */
  function RowAsset(f: Formats, row: Row, table: map<string, Row>): Option<Asset> {
    if IsSupported(f, row) && row.ref.Some? && row.ref.value in table && Shows(f, table[row.ref.value], row.ref.value)
    then Some(BuildAsset(f, table[row.ref.value])) else None
  }

  function RowAssets(f: Formats, rows: seq<Row>, table: map<string, Row>): seq<Asset> {
    if rows == [] then []
    else (if RowAsset(f, rows[0], table).Some? then [RowAsset(f, rows[0], table).value] else [])
         + RowAssets(f, rows[1..], table)
  }

  lemma {:induction false} ItemsAreRowAssets(f: Formats, rows: seq<Row>, table: map<string, Row>,
                                             byId: map<string, Asset>)
    requires forall ref :: ref in SupportedRefs(f, OnlyRecords(rows)) ==>
               if ref in table && Shows(f, table[ref], ref) then ref in byId && byId[ref] == BuildAsset(f, table[ref])
               else ref !in byId
    ensures InListingOrder(SupportedRefs(f, OnlyRecords(rows)), byId) == RowAssets(f, rows, table)
    decreases |rows|
  {
    if rows != [] {
      var row, rest := rows[0], rows[1..];
      var records := OnlyRecords(rows);
      if row.Record? {
        assert records[0] == row && records[1..] == OnlyRecords(rest);
        var refs := SupportedRefs(f, records);
        if IsSupported(f, row) && row.ref.Some? {
          assert refs[0] == row.ref.value && refs[1..] == SupportedRefs(f, OnlyRecords(rest));
        } else {
          assert refs == SupportedRefs(f, OnlyRecords(rest));
        }
      } else {
        assert records == OnlyRecords(rest);
      }
      ItemsAreRowAssets(f, rest, table, byId);
    }
  }

  function DataOf(listing: Reply): seq<Row>
    requires !listing.Unusable?
  {
    if listing.Paged? then listing.data else listing.rows
  }

  lemma {:induction false} NoRefsNoAssets(f: Formats, rows: seq<Row>, table: map<string, Row>)
    requires SupportedRefs(f, OnlyRecords(rows)) == []
    ensures RowAssets(f, rows, table) == []
    decreases |rows|
  {
    if rows != [] {
      var records := OnlyRecords(rows);
      if rows[0].Record? {
        assert records[0] == rows[0] && records[1..] == OnlyRecords(rows[1..]);
      } else {
        assert records == OnlyRecords(rows[1..]);
      }
      NoRefsNoAssets(f, rows[1..], table);
    }
  }

  /** The page in terms of a table the reply answers for. */
  lemma PageFromTable(f: Formats, listing: Reply, previews: seq<string> -> Reply, table: map<string, Row>)
    requires !listing.Unusable?
    requires var refs := SupportedRefs(f, SearchRecords(listing).1); Answers(f, previews(refs), refs, table)
    ensures var (total, records) := SearchRecords(listing);
            ListLiveAssets(f, listing, previews) == Page(RowAssets(f, DataOf(listing), table), total, |records|)
  {
    var records := SearchRecords(listing).1;
    assert records == OnlyRecords(DataOf(listing));
    var refs := SupportedRefs(f, records);
    if refs == [] { NoRefsNoAssets(f, DataOf(listing), table); }
    var found := SearchRecords(previews(refs)).1;
    var byId := ById(Normalize(f, found));
    forall ref | ref in refs
      ensures if ref in table && Shows(f, table[ref], ref) then ref in byId && byId[ref] == BuildAsset(f, table[ref])
              else ref !in byId
    {
      ByIdKeepsTheLast(f, found, ref);
    }
    ItemsAreRowAssets(f, DataOf(listing), table, byId);
  }

  /** Main result. Whatever the two replies hold, a live page has, in listing order, exactly the
      assets of the supported listed refs for which the second reply holds a supported record with
      a thumbnail, each as its last such record has it; it reports every listed object as
      scanned. It fails only if a reply is no search result. */
  lemma LivePageIsTheFilteredListing(f: Formats, listing: Reply, previews: seq<string> -> Reply)
    ensures var (total, records) := SearchRecords(listing); var refs := SupportedRefs(f, records);
            ListLiveAssets(f, listing, previews) ==
            if listing.Unusable? || (refs != [] && previews(refs).Unusable?) then UpstreamFailed
            else Page(RowAssets(f, DataOf(listing), ShownRecords(f, previews(refs), refs)), total, |records|)
  {
    if !listing.Unusable? {
      var refs := SupportedRefs(f, SearchRecords(listing).1);
      var table := ShownRecords(f, previews(refs), refs);
      if refs == [] || !previews(refs).Unusable? { PageFromTable(f, listing, previews, table); }
    }
  }

  // ---------------------------------------------------------------- as a source for paging

  predicate AllRecords(rows: seq<Row>) {
    forall i :: 0 <= i < |rows| ==> rows[i].Record?
  }

  lemma {:induction false} OnlyRecordsCount(rows: seq<Row>)
    ensures |OnlyRecords(rows)| <= |rows|
    ensures |OnlyRecords(rows)| == |rows| <==> AllRecords(rows)
  {
    if rows != [] {
      OnlyRecordsCount(rows[1..]);
      assert AllRecords(rows) <==> rows[0].Record? && AllRecords(rows[1..]);
    }
  }

  function KeptRows(f: Formats, rows: seq<Row>, table: map<string, Row>): seq<Option<string>> {
    seq(|rows|, i requires 0 <= i < |rows| =>
      if RowAsset(f, rows[i], table).Some? then Some(RowAsset(f, rows[i], table).value.id) else None)
  }

  function Ids(assets: seq<Asset>): seq<string> {
    seq(|assets|, i requires 0 <= i < |assets| => assets[i].id)
  }

  lemma {:induction false} IdsOfRowAssets(f: Formats, rows: seq<Row>, table: map<string, Row>)
    ensures Ids(RowAssets(f, rows, table)) == FindPaging.Kept(KeptRows(f, rows, table))
  {
    if rows != [] {
      var rest := rows[1..];
      IdsOfRowAssets(f, rest, table);
      assert KeptRows(f, rows, table)[1..] == KeptRows(f, rest, table);
      var head := if RowAsset(f, rows[0], table).Some? then [RowAsset(f, rows[0], table).value] else [];
      assert RowAssets(f, rows, table) == head + RowAssets(f, rest, table);
      assert Ids(RowAssets(f, rows, table)) == Ids(head) + Ids(RowAssets(f, rest, table));
    }
  }

  /** The page the listing call gets from a stable upstream with these rows and this total. */
  function UpstreamPage(rows: seq<Row>, total: int, offset: nat, limit: nat): Reply {
    Paged(total, FindPaging.Slice(rows, offset, Max(1, Min(limit, MAX_LIMIT))))
  }

  /** Main result. Over a stable upstream the live listing is a paged source of the kind the
      find endpoint is proved complete over, provided every row of the page is an object: a row
      that is not is skipped without being counted as scanned, and only then do they differ. */
  lemma LiveListingIsAPagedSource(f: Formats, rows: seq<Row>, total: int, previews: seq<string> -> Reply,
                                  table: map<string, Row>, offset: nat, limit: nat)
    requires var refs := SupportedRefs(f, SearchRecords(UpstreamPage(rows, total, offset, limit)).1);
             Answers(f, previews(refs), refs, table)
    ensures var page := ListLiveAssets(f, UpstreamPage(rows, total, offset, limit), previews);
            var backend := FindPaging.Backend(KeptRows(f, rows, table), total, Some(MAX_LIMIT));
            && page.Page?
            && (FindPaging.AssetPage(Ids(page.items), page.total, Some(page.scanned))
                == FindPaging.ListAssets(backend, offset, limit)
                <==> AllRecords(UpstreamPage(rows, total, offset, limit).data))
  {
    var listing := UpstreamPage(rows, total, offset, limit);
    PageFromTable(f, listing, previews, table);
    IdsOfRowAssets(f, listing.data, table);
    OnlyRecordsCount(listing.data);
    SliceOfKeptRows(f, rows, table, offset, Max(1, Min(limit, MAX_LIMIT)));
  }

  lemma SliceOfKeptRows(f: Formats, rows: seq<Row>, table: map<string, Row>, offset: nat, count: nat)
    ensures KeptRows(f, FindPaging.Slice(rows, offset, count), table)
         == FindPaging.Slice(KeptRows(f, rows, table), offset, count)
  {
  }
}
