/**
 Following continuations through the live listing, whose pages do not count as scanned the rows
 that are no objects.
*/
module LivePaging {
  import opened Bounds
  import opened Options
  import opened FindPaging
  import opened LiveListing

  /** The listing the find endpoint calls, over a stable upstream with these rows and this total.
      A failure raises; it does not happen where every reply is usable. */
  function LiveSource(f: Formats, rows: seq<Row>, total: int, previews: seq<string> -> Reply)
    : (nat, nat) -> AssetPage
  {
    (offset: nat, limit: nat) => AsPage(ListLiveAssets(f, UpstreamPage(rows, total, offset, limit), previews))
  }

  function AsPage(listed: Listed): AssetPage {
    match listed
    case Page(items, total, scanned) => AssetPage(Ids(items), total, Some(scanned))
    case UpstreamFailed => AssetPage([], 0, None)
  }

  /** The upstream answers for every page as `table` says. */
  ghost predicate AnswersEveryPage(f: Formats, rows: seq<Row>, total: int, previews: seq<string> -> Reply,
                                   table: map<string, Row>)
  {
    forall offset: nat, limit: nat ::
      var refs := SupportedRefs(f, SearchRecords(UpstreamPage(rows, total, offset, limit)).1);
      Answers(f, previews(refs), refs, table)
  }

  // ---------------------------------------------------------------- what one page does

  /** The index of the first row that is no object, or the number of rows. */
  function FirstNonObject(rows: seq<Row>): (r: nat)
    ensures r <= |rows| && (r < |rows| ==> !rows[r].Record?)
    ensures forall i :: 0 <= i < r ==> rows[i].Record?
  {
    if rows == [] || !rows[0].Record? then 0 else 1 + FirstNonObject(rows[1..])
  }

  /** Where a page that starts at `offset` ends. */
  function EndOf(kept: seq<Option<string>>, offset: nat, limit: nat): nat
    requires offset <= |kept|
  {
    Min(|kept|, offset + Max(1, Min(limit, MAX_LIMIT)))
  }

  /** A listing that keeps the `kept` rows, always reports `total`, and counts as scanned all rows
      of a page before the `first`, and of the others some at most. A page of the `first` row
      alone counts nothing. */
  ghost predicate CountsBefore(list: (nat, nat) -> AssetPage, kept: seq<Option<string>>, total: int, first: nat) {
    && first <= |kept| && (first < |kept| ==> kept[first] == None)
    && forall offset: nat, limit: nat :: PageCountsBefore(list(offset, limit), kept, total, first, offset, limit)
  }

  predicate PageCountsBefore(page: AssetPage, kept: seq<Option<string>>, total: int, first: nat,
                             offset: nat, limit: nat)
    requires first <= |kept|
  {
    && page.total == total && page.scanned.Some? && page.scanned.value >= 0
    && (offset >= |kept| ==> page.items == [] && page.scanned.value == 0)
    && (offset < |kept| ==>
          var end := EndOf(kept, offset, limit);
          && page.items == Kept(kept[offset..end])
          && page.scanned.value <= end - offset
          && Min(first, end) - offset <= page.scanned.value
          && (offset == first && end == first + 1 ==> page.scanned.value == 0))
  }

  lemma {:induction false} CountedPrefix(rows: seq<Row>)
    ensures FirstNonObject(rows) <= |OnlyRecords(rows)| <= |rows|
    decreases |rows|
  {
    if rows != [] { CountedPrefix(rows[1..]); }
  }

  /** A stretch of rows starts with those before the first that is no object. */
  lemma {:induction false} FirstInSlice(rows: seq<Row>, from: nat, to: nat)
    requires from <= to <= |rows|
    ensures Min(FirstNonObject(rows), to) - from <= FirstNonObject(rows[from..to])
    decreases |rows| - from
  {
    var slice := rows[from..to];
    if from < to && from < FirstNonObject(rows) {
      assert slice[0] == rows[from] && slice[1..] == rows[from + 1..to];
      FirstInSlice(rows, from + 1, to);
    }
  }

  lemma NothingIsKeptOfNonObjects(f: Formats, rows: seq<Row>, table: map<string, Row>, i: nat)
    requires i < |rows| && !rows[i].Record?
    ensures KeptRows(f, rows, table)[i] == None
  {
  }

  function RowsAsked(limit: nat): nat {
    Max(1, Min(limit, MAX_LIMIT))
  }

  lemma LivePageIs(f: Formats, rows: seq<Row>, total: int, previews: seq<string> -> Reply, table: map<string, Row>,
                   offset: nat, limit: nat)
    requires AnswersEveryPage(f, rows, total, previews, table)
    ensures var kept, count := KeptRows(f, rows, table), RowsAsked(limit);
            LiveSource(f, rows, total, previews)(offset, limit)
            == AssetPage(Kept(Slice(kept, offset, count)), total, Some(|OnlyRecords(Slice(rows, offset, count))|))
  {
    hide ListLiveAssets, Kept, KeptRows, RowAssets, Answers;
    var listing := UpstreamPage(rows, total, offset, limit);
    PageFromTable(f, listing, previews, table);
    IdsOfRowAssets(f, listing.data, table);
    SliceOfKeptRows(f, rows, table, offset, RowsAsked(limit));
  }

  lemma ScannedOfSlice(rows: seq<Row>, offset: nat, end: nat)
    requires offset < end <= |rows|
    ensures var scanned := |OnlyRecords(rows[offset..end])|; var first := FirstNonObject(rows);
            && Min(first, end) - offset <= scanned <= end - offset
            && (offset == first && end == first + 1 ==> scanned == 0)
  {
    CountedPrefix(rows[offset..end]);
    FirstInSlice(rows, offset, end);
    if offset == FirstNonObject(rows) && end == offset + 1 {
      assert rows[offset..end] == [rows[offset]];
      LoneNonObject(rows[offset]);
    }
  }

  lemma LivePageCounts(f: Formats, rows: seq<Row>, total: int, previews: seq<string> -> Reply, table: map<string, Row>,
                       offset: nat, limit: nat)
    requires AnswersEveryPage(f, rows, total, previews, table)
    ensures PageCountsBefore(LiveSource(f, rows, total, previews)(offset, limit), KeptRows(f, rows, table), total,
                             FirstNonObject(rows), offset, limit)
  {
    hide LiveSource, Kept, KeptRows, OnlyRecords;
    LivePageIs(f, rows, total, previews, table, offset, limit);
    KeptRowsCount(f, rows, table);
    if offset < |rows| {
      ScannedOfSlice(rows, offset, EndOf(KeptRows(f, rows, table), offset, limit));
    } else {
      KeepNothing();
    }
  }

  lemma KeptRowsCount(f: Formats, rows: seq<Row>, table: map<string, Row>)
    ensures |KeptRows(f, rows, table)| == |rows|
  {
  }

  lemma LoneNonObject(r: Row)
    requires !r.Record?
    ensures OnlyRecords([r]) == []
  {
    assert [r][1..] == [];
  }

  lemma KeepNothing()
    ensures Kept([]) == [] && OnlyRecords([]) == []
  {
  }

  lemma LiveSourceCounts(f: Formats, rows: seq<Row>, total: int, previews: seq<string> -> Reply,
                         table: map<string, Row>)
    requires AnswersEveryPage(f, rows, total, previews, table)
    ensures CountsBefore(LiveSource(f, rows, total, previews), KeptRows(f, rows, table), total, FirstNonObject(rows))
  {
    var list, kept := LiveSource(f, rows, total, previews), KeptRows(f, rows, table);
    var first := FirstNonObject(rows);
    if first < |rows| { NothingIsKeptOfNonObjects(f, rows, table, first); }
    forall offset: nat, limit: nat
      ensures PageCountsBefore(list(offset, limit), kept, total, first, offset, limit)
    {
      LivePageCounts(f, rows, total, previews, table, offset, limit);
    }
  }

  // ---------------------------------------------------------------- the rows every client gets

  /** The rows no client misses: before the first that is no object, and among those below the
      reported total or, when there is no container for the first page to return, the first. */
  function Safe(containers: seq<string>, kept: seq<Option<string>>, total: int, first: nat): (k: nat)
    ensures k <= |kept| && k <= first
    requires first <= |kept|
  {
    Min(first, Min(|kept|, Max(total, if containers == [] then 1 else 0)))
  }

  /** Cursors handed out: no asset is fetched before the containers are through. */
  ghost predicate HandedOut(containers: seq<string>, c: Cursor) {
    c.containerOffset <= |containers| && (c.containerOffset < |containers| ==> c.assetOffset == 0)
  }

  /** What a page takes of the rows up to `k` is a stretch of them. */
  lemma RowsOfPage(kept: seq<Option<string>>, k: nat, offset: nat, end: nat, after: nat)
    requires k <= |kept| && offset <= end <= |kept| && Kept(kept[k..]) == []
    requires after >= Min(k, end) && after >= offset && (end < k ==> after == end)
    ensures Kept(kept[offset..end]) == Kept(kept[Min(offset, k)..Min(after, k)])
  {
    if offset >= k {
      NothingBetween(kept, k, offset, end);
      assert kept[k..k] == [];
    } else if end > k {
      KeptSplit(kept, offset, k, end);
      NothingBetween(kept, k, k, end);
    }
  }

  lemma NothingBetween(kept: seq<Option<string>>, k: nat, from: nat, to: nat)
    requires k <= from <= to <= |kept| && Kept(kept[k..]) == []
    ensures Kept(kept[from..to]) == []
  {
    NothingLater(kept, k, from);
    KeptSplit(kept, from, to, |kept|);
    assert kept[from..|kept|] == kept[from..];
  }

  /** One asset page, when nothing is kept from `k` on. */
  lemma AssetPageAdvances(page: AssetPage, kept: seq<Option<string>>, total: int, first: nat, k: nat,
                          offset: nat, limit: nat)
    requires k <= first <= |kept| && Kept(kept[k..]) == []
    requires PageCountsBefore(page, kept, total, first, offset, limit)
    ensures var after := AdvanceAssetOffset(offset, page, total);
            && after >= offset && (offset < |kept| ==> after >= Min(k, offset + 1))
            && page.items == Kept(kept[Min(offset, k)..Min(after, k)])
  {
    hide Kept;
    var after := AdvanceAssetOffset(offset, page, total);
    if offset < |kept| {
      RowsOfPage(kept, k, offset, EndOf(kept, offset, limit), after);
    } else {
      EmptyStretch(kept, k);
    }
  }

  lemma EmptyStretch(kept: seq<Option<string>>, k: nat)
    requires k <= |kept|
    ensures Kept(kept[k..k]) == []
  {
  }

  /** One page of the endpoint, when nothing is kept from the safe rows on. */
  lemma PageOverAdvances(containers: seq<string>, list: (nat, nat) -> AssetPage, kept: seq<Option<string>>, total: int,
                         first: nat, c: Cursor, limit: nat)
    requires CountsBefore(list, kept, total, first) && HandedOut(containers, c) && limit >= 1
    requires Kept(kept[Safe(containers, kept, total, first)..]) == []
    ensures var k := Safe(containers, kept, total, first); var m := Min(|containers|, c.containerOffset + limit);
            var r := FindOver(containers, true, list, c, limit);
            exists after: nat :: after >= c.assetOffset
              && r.resources == Containers(containers[c.containerOffset..m])
                                + Images(Kept(kept[Min(c.assetOffset, k)..Min(after, k)]))
              && (r.next.Some? ==> r.next.value == Cursor(m, after) && HandedOut(containers, r.next.value))
              && (r.next.None? ==> m == |containers| && after >= k)
              && (m < |containers| ==> after == c.assetOffset)
  {
    hide Kept, Images, Containers;
    var k, m := Safe(containers, kept, total, first), Min(|containers|, c.containerOffset + limit);
    SliceInside(containers, c.containerOffset, limit);
    var taken := |Slice(containers, c.containerOffset, limit)|;
    if limit > taken {
      var page := list(c.assetOffset, limit - taken);
      assert PageCountsBefore(page, kept, total, first, c.assetOffset, limit - taken);
      AssetPageAdvances(page, kept, total, first, k, c.assetOffset, limit - taken);
    } else {
      assert PageCountsBefore(list(0, 1), kept, total, first, 0, 1);
      NoRowsNoImages(kept, Min(c.assetOffset, k), Containers(containers[c.containerOffset..m]));
    }
  }

  lemma {:induction false} FollowTakesTheSafeRows(containers: seq<string>, list: (nat, nat) -> AssetPage,
                                                  kept: seq<Option<string>>, total: int, first: nat,
                                                  c: Cursor, limits: nat -> nat, i: nat)
    requires CountsBefore(list, kept, total, first) && TotalsWithin(list, total) && Positive(limits)
    requires first <= |kept|
    requires HandedOut(containers, c) && Kept(kept[Safe(containers, kept, total, first)..]) == []
    ensures var k := Safe(containers, kept, total, first);
            FollowOver(containers, true, list, total, c, limits, i)
            == Containers(containers[c.containerOffset..]) + Images(Kept(kept[Min(c.assetOffset, k)..k]))
    decreases LeftToScan(containers, total, c)
  {
    hide Kept, Images, Containers, FindOver, CountsBefore, Safe;
    var k := Safe(containers, kept, total, first);
    var r := FindOver(containers, true, list, c, limits(i));
    var m := Min(|containers|, c.containerOffset + limits(i));
    PageOverAdvances(containers, list, kept, total, first, c, limits(i));
    var after: nat :| after >= c.assetOffset
      && r.resources == Containers(containers[c.containerOffset..m])
                        + Images(Kept(kept[Min(c.assetOffset, k)..Min(after, k)]))
      && (r.next.Some? ==> r.next.value == Cursor(m, after) && HandedOut(containers, r.next.value))
      && (r.next.None? ==> m == |containers| && after >= k)
      && (m < |containers| ==> after == c.assetOffset);
    EachPageOfAListingMakesProgress(containers, true, list, total, c, limits(i));
    if r.next.Some? {
      FollowTakesTheSafeRows(containers, list, kept, total, first, r.next.value, limits, i + 1);
      JoinPages(containers, kept, c.containerOffset, m, Min(c.assetOffset, k), Min(after, k), k);
    } else {
      assert containers[c.containerOffset..] == containers[c.containerOffset..m];
    }
  }

  // ---------------------------------------------------------------- the client that gets no more

  /** All containers at once, then one row at a time. */
  function OneByOne(containers: seq<string>): nat -> nat {
    i => if i == 0 && containers != [] then |containers| else 1
  }

  /** A page of one row: before the first that is no object it moves on, at that one it stops. */
  lemma PageOfOneRow(containers: seq<string>, list: (nat, nat) -> AssetPage, kept: seq<Option<string>>, total: int,
                     first: nat, a: nat)
    requires CountsBefore(list, kept, total, first) && a <= first
    ensures var r := FindOver(containers, true, list, Cursor(|containers|, a), 1);
            if a < first then
              && r.resources == Images(Kept(kept[a..a + 1]))
              && r.next == if a + 1 < total then Some(Cursor(|containers|, a + 1)) else None
            else r.resources == [] && r.next == None
  {
    var page := list(a, 1);
    assert PageCountsBefore(page, kept, total, first, a, 1);
    if a < |kept| { assert EndOf(kept, a, 1) == a + 1; }
    if a == first < |kept| { assert kept[a..a + 1] == [None]; }
    NoContainersLeft(containers);
    assert [] + Images(page.items) == Images(page.items);
  }

  lemma NoContainersLeft(containers: seq<string>)
    ensures Slice(containers, |containers|, 1) == [] && Containers([]) == [] && Images([]) == []
  {
  }

  lemma {:induction false} OneByOneTakesTheSafeRows(containers: seq<string>, list: (nat, nat) -> AssetPage,
                                                    kept: seq<Option<string>>, total: int, first: nat,
                                                    a: nat, limits: nat -> nat, i: nat)
    requires CountsBefore(list, kept, total, first) && TotalsWithin(list, total) && Positive(limits)
    requires first <= |kept| && (forall j :: j >= i ==> limits(j) == 1)
    requires a <= Safe(containers, kept, total, first) && (a < total || (a == 0 && containers == []))
    ensures FollowOver(containers, true, list, total, Cursor(|containers|, a), limits, i)
         == Images(Kept(kept[a..Safe(containers, kept, total, first)]))
    decreases |kept| - a
  {
    hide Kept, Images, FindOver, CountsBefore;
    var k, c := Safe(containers, kept, total, first), Cursor(|containers|, a);
    var r := FindOver(containers, true, list, c, limits(i));
    PageOfOneRow(containers, list, kept, total, first, a);
    if a < first {
      if a < k { JoinRows(kept, a, a + 1, k); }
      if r.next.Some? {
        OneByOneTakesTheSafeRows(containers, list, kept, total, first, a + 1, limits, i + 1);
      } else {
        NoRowsNoImages(kept, k, r.resources);
      }
    } else {
      NoRowsNoImages(kept, k, []);
    }
  }

  lemma SparingClientTakesTheSafeRows(containers: seq<string>, list: (nat, nat) -> AssetPage, kept: seq<Option<string>>,
                                      total: int, first: nat)
    requires CountsBefore(list, kept, total, first) && TotalsWithin(list, total) && first <= |kept|
    ensures Positive(OneByOne(containers))
    ensures FollowOver(containers, true, list, total, FirstPage, OneByOne(containers), 0)
         == Containers(containers) + Images(Kept(kept[..Safe(containers, kept, total, first)]))
  {
    hide Kept, Images, Containers, CountsBefore;
    var k, limits := Safe(containers, kept, total, first), OneByOne(containers);
    assert kept[..k] == kept[0..k];
    if containers == [] {
      OneByOneTakesTheSafeRows(containers, list, kept, total, first, 0, limits, 0);
      NoContainersLeft(containers);
      assert [] + Images(Kept(kept[0..k])) == Images(Kept(kept[0..k]));
    } else {
      AllContainersAtOnce(containers, list, kept, total, first);
      if 0 < total {
        OneByOneTakesTheSafeRows(containers, list, kept, total, first, 0, limits, 1);
      } else {
        NoRowsNoImages(kept, 0, Containers(containers));
        assert Containers(containers) + [] == Containers(containers);
      }
    }
  }

  lemma AllContainersAtOnce(containers: seq<string>, list: (nat, nat) -> AssetPage, kept: seq<Option<string>>,
                            total: int, first: nat)
    requires CountsBefore(list, kept, total, first) && containers != []
    ensures FindOver(containers, true, list, FirstPage, |containers|)
         == FindResult(Containers(containers), if 0 < total then Some(Cursor(|containers|, 0)) else None)
  {
    assert Slice(containers, 0, |containers|) == containers;
    assert PageCountsBefore(list(0, 1), kept, total, first, 0, 1);
  }

  // ---------------------------------------------------------------- exactly when nothing is missed

  lemma LiveTotals(f: Formats, rows: seq<Row>, total: int, previews: seq<string> -> Reply, table: map<string, Row>)
    requires AnswersEveryPage(f, rows, total, previews, table)
    ensures TotalsWithin(LiveSource(f, rows, total, previews), total)
  {
    var list := LiveSource(f, rows, total, previews);
    forall offset: nat, limit: nat ensures list(offset, limit).total <= total {
      LivePageIs(f, rows, total, previews, table, offset, limit);
    }
  }

  /** The containers, then every row with a usable preview, each once and in order. */
  function AllOf(f: Formats, rows: seq<Row>, table: map<string, Row>, containers: seq<string>): seq<Resource> {
    Containers(containers) + Images(Ids(RowAssets(f, rows, table)))
  }

  lemma SafeRowsSuffice(f: Formats, rows: seq<Row>, total: int, previews: seq<string> -> Reply, table: map<string, Row>,
                        containers: seq<string>, limits: nat -> nat)
    requires AnswersEveryPage(f, rows, total, previews, table) && Positive(limits)
    requires TotalsWithin(LiveSource(f, rows, total, previews), total)
    requires |KeptRows(f, rows, table)| == |rows|
    requires var kept := KeptRows(f, rows, table);
             Kept(kept[Safe(containers, kept, total, FirstNonObject(rows))..]) == []
    ensures FollowOver(containers, true, LiveSource(f, rows, total, previews), total, FirstPage, limits, 0)
         == AllOf(f, rows, table, containers)
  {
    hide Kept, KeptRows, LiveSource, RowAssets, FindOver, Images, Containers, AnswersEveryPage;
    var kept, list, first := KeptRows(f, rows, table), LiveSource(f, rows, total, previews), FirstNonObject(rows);
    var k := Safe(containers, kept, total, first);
    LiveSourceCounts(f, rows, total, previews, table);
    FollowTakesTheSafeRows(containers, list, kept, total, first, FirstPage, limits, 0);
    assert containers[0..] == containers && kept[0..k] == kept[..k];
    PastTheEndNothing(kept, k, k);
    IdsOfRowAssets(f, rows, table);
  }

  lemma SparingClientMissesTheRest(f: Formats, rows: seq<Row>, total: int, previews: seq<string> -> Reply,
                                   table: map<string, Row>, containers: seq<string>)
    requires AnswersEveryPage(f, rows, total, previews, table)
    requires TotalsWithin(LiveSource(f, rows, total, previews), total) && Positive(OneByOne(containers))
    requires |KeptRows(f, rows, table)| == |rows|
    requires var list := LiveSource(f, rows, total, previews);
             FollowOver(containers, true, list, total, FirstPage, OneByOne(containers), 0)
             == AllOf(f, rows, table, containers)
    ensures var kept := KeptRows(f, rows, table);
            Kept(kept[Safe(containers, kept, total, FirstNonObject(rows))..]) == []
  {
    hide Kept, KeptRows, LiveSource, RowAssets, FindOver, AnswersEveryPage;
    var kept, list, first := KeptRows(f, rows, table), LiveSource(f, rows, total, previews), FirstNonObject(rows);
    var k := Safe(containers, kept, total, first);
    LiveSourceCounts(f, rows, total, previews, table);
    SparingClientTakesTheSafeRows(containers, list, kept, total, first);
    IdsOfRowAssets(f, rows, table);
    KeptPrefix(kept, k);
    assert |AllOf(f, rows, table, containers)| == |containers| + |Kept(kept)|;
  }

  /** Main result, exactly when the live listing is complete: over a stable upstream every client
      gets every container once in order and then every row with a usable preview once in order,
      whatever limits it asks for, if and only if no such row comes after the first row that is
      no object or, should that be earlier, past the reported total (past the first row, if there
      is no container to return first). */
  lemma LiveListingIsCompleteExactly(f: Formats, rows: seq<Row>, total: int, previews: seq<string> -> Reply,
                                     table: map<string, Row>, containers: seq<string>)
    requires AnswersEveryPage(f, rows, total, previews, table)
    ensures |KeptRows(f, rows, table)| == |rows|
    ensures var list, kept := LiveSource(f, rows, total, previews), KeptRows(f, rows, table);
            && TotalsWithin(list, total)
            && ((forall limits: nat -> nat :: Positive(limits) ==>
                   FollowOver(containers, true, list, total, FirstPage, limits, 0) == AllOf(f, rows, table, containers))
                <==> Kept(kept[Safe(containers, kept, total, FirstNonObject(rows))..]) == [])
  {
    hide LiveSource, Kept, RowAssets, FindOver, AnswersEveryPage;
    LiveTotals(f, rows, total, previews, table);
    KeptRowsCount(f, rows, table);
    var list, kept := LiveSource(f, rows, total, previews), KeptRows(f, rows, table);
    if Kept(kept[Safe(containers, kept, total, FirstNonObject(rows))..]) == [] {
      forall limits: nat -> nat | Positive(limits)
        ensures FollowOver(containers, true, list, total, FirstPage, limits, 0) == AllOf(f, rows, table, containers)
      {
        SafeRowsSuffice(f, rows, total, previews, table, containers, limits);
      }
    } else {
      LiveSourceCounts(f, rows, total, previews, table);
      SparingClientTakesTheSafeRows(containers, list, kept, total, FirstNonObject(rows));
      var limits := OneByOne(containers);
      if FollowOver(containers, true, list, total, FirstPage, limits, 0) == AllOf(f, rows, table, containers) {
        SparingClientMissesTheRest(f, rows, total, previews, table, containers);
      }
    }
  }

  /** In particular it is complete when every row is an object and the total is not below the rows. */
  lemma FollowingTheLiveListingReturnsEverything(f: Formats, rows: seq<Row>, total: int, previews: seq<string> -> Reply,
                                                 table: map<string, Row>, containers: seq<string>, limits: nat -> nat)
    requires AllRecords(rows) && AnswersEveryPage(f, rows, total, previews, table)
    requires Positive(limits) && total >= |rows|
    ensures TotalsWithin(LiveSource(f, rows, total, previews), total)
    ensures FollowOver(containers, true, LiveSource(f, rows, total, previews), total, FirstPage, limits, 0)
         == AllOf(f, rows, table, containers)
  {
    LiveTotals(f, rows, total, previews, table);
    KeptRowsCount(f, rows, table);
    KeepNothing();
    assert FirstNonObject(rows) == |rows|;
    SafeRowsSuffice(f, rows, total, previews, table, containers, limits);
  }

  // ---------------------------------------------------------------- rows that are no objects

  /** A row that is no object is skipped without counting as scanned, so the next page starts one
      row early: with pages of two, the client below is shown asset "a" twice. */
  lemma ANonObjectRowShowsAnAssetTwice(f: Formats)
    requires f.mimeOf("jpg") in f.supported
    ensures var a, b := Record(Some("a"), "jpg", "", "u", ""), Record(Some("b"), "jpg", "", "u", "");
            var list := LiveSource(f, [NotAnObject, a, b], 3, refs => Bare([a, b]));
            var first := FindOver([], true, list, FirstPage, 2);
            && first.resources == [Image("a")] && first.next == Some(Cursor(0, 1))
            && FindOver([], true, list, first.next.value, 2).resources
               == [Image("a"), Image("b")]
  {
    var a, b := Record(Some("a"), "jpg", "", "u", ""), Record(Some("b"), "jpg", "", "u", "");
    var rows := [NotAnObject, a, b];
    var previews: seq<string> -> Reply := refs => Bare([a, b]);
    PageOfTwo(f, a, b);
    var list := LiveSource(f, rows, 3, previews);
    assert UpstreamPage(rows, 3, 0, 2) == Paged(3, [NotAnObject, a]);
    assert UpstreamPage(rows, 3, 1, 2) == Paged(3, [a, b]);
    assert list(0, 2) == AssetPage(["a"], 3, Some(1));
    assert list(1, 2) == AssetPage(["a", "b"], 3, Some(2));
  }

  lemma PageOfTwo(f: Formats, a: Row, b: Row)
    requires a == Record(Some("a"), "jpg", "", "u", "") && b == Record(Some("b"), "jpg", "", "u", "")
    requires f.mimeOf("jpg") in f.supported
    ensures ListLiveAssets(f, Paged(3, [NotAnObject, a]), refs => Bare([a, b])) == Page([BuildAsset(f, a)], 3, 1)
    ensures ListLiveAssets(f, Paged(3, [a, b]), refs => Bare([a, b]))
      == Page([BuildAsset(f, a), BuildAsset(f, b)], 3, 2)
  {
    assert [NotAnObject, a][1..] == [a] && [a, b][1..] == [b] && [a][1..] == [] && [b][1..] == [];
    assert OnlyRecords([a]) == [a] && OnlyRecords([b]) == [b];
    assert OnlyRecords([NotAnObject, a]) == [a] && OnlyRecords([a, b]) == [a, b];
    assert SupportedRefs(f, [a]) == ["a"] && SupportedRefs(f, [b]) == ["b"] && SupportedRefs(f, [a, b]) == ["a", "b"];
    assert Normalize(f, [b]) == [BuildAsset(f, b)] && Normalize(f, [a, b]) == [BuildAsset(f, a), BuildAsset(f, b)];
    var assets := [BuildAsset(f, a), BuildAsset(f, b)];
    assert assets[..1] == [BuildAsset(f, a)] && [BuildAsset(f, a)][..0] == [] && "a"[0] != "b"[0];
    var byId := ById(assets);
    assert ById([BuildAsset(f, a)]) == map["a" := BuildAsset(f, a)];
    assert byId == map["a" := BuildAsset(f, a), "b" := BuildAsset(f, b)];
    assert ["a"][1..] == [] && ["a", "b"][1..] == ["b"] && ["b"][1..] == [];
    assert InListingOrder(["b"], byId) == [BuildAsset(f, b)];
    assert InListingOrder(["a"], byId) == [BuildAsset(f, a)];
  }

  /** Worse, a page of nothing but such rows counts nothing as scanned, and the cursor jumps to the
      total: a client that asks for one row at a time is never shown the asset after it. */
  lemma ANonObjectRowLosesTheRest(f: Formats, a: Row)
    ensures var list := LiveSource(f, [NotAnObject, a], 2, refs => Bare([a]));
            FindOver([], true, list, FirstPage, 1) == FindResult([], None)
  {
    LoneNonObject(NotAnObject);
    assert UpstreamPage([NotAnObject, a], 2, 0, 1) == Paged(2, [NotAnObject]);
    assert SupportedRefs(f, []) == [];
    NoContainersLeft([]);
  }

  // ---------------------------------------------------------------- an upstream of bare lists

  /** The listing over an upstream that answers each slice as a bare list. */
  function BareSource(f: Formats, rows: seq<Row>, previews: seq<string> -> Reply): (nat, nat) -> AssetPage {
    (offset: nat, limit: nat) => AsPage(ListLiveAssets(f, Bare(Slice(rows, offset, RowsAsked(limit))), previews))
  }

  /** A bare list's own length is taken for the total. A page that has room for assets is then the
      last one if and only if no row of its slice is an object, or the rows of the slice do not
      outnumber the objects among them by more than the offset. */
  lemma BareListEndsThePaging(f: Formats, rows: seq<Row>, previews: seq<string> -> Reply, containers: seq<string>,
                              c: Cursor, limit: nat)
    requires limit > |Slice(containers, c.containerOffset, limit)|
    requires var room := limit - |Slice(containers, c.containerOffset, limit)|;
             ListLiveAssets(f, Bare(Slice(rows, c.assetOffset, RowsAsked(room))), previews).Page?
    ensures var room := limit - |Slice(containers, c.containerOffset, limit)|;
            var slice := Slice(rows, c.assetOffset, RowsAsked(room));
            FindOver(containers, true, BareSource(f, rows, previews), c, limit).next == None
            <==> OnlyRecords(slice) == [] || |slice| - |OnlyRecords(slice)| <= c.assetOffset
  {
  }

  ghost predicate BareListsAnswered(f: Formats, rows: seq<Row>, previews: seq<string> -> Reply) {
    forall offset: nat, limit: nat :: ListLiveAssets(f, Bare(Slice(rows, offset, RowsAsked(limit))), previews).Page?
  }

  lemma BareTotals(f: Formats, rows: seq<Row>, previews: seq<string> -> Reply)
    requires BareListsAnswered(f, rows, previews)
    ensures TotalsWithin(BareSource(f, rows, previews), MAX_LIMIT)
  {
    var list := BareSource(f, rows, previews);
    forall offset: nat, limit: nat ensures list(offset, limit).total <= MAX_LIMIT {
      assert ListLiveAssets(f, Bare(Slice(rows, offset, RowsAsked(limit))), previews).Page?;
    }
  }

  lemma BareObjectsEndThePaging(f: Formats, rows: seq<Row>, previews: seq<string> -> Reply, containers: seq<string>,
                                c: Cursor, limit: nat)
    requires AllRecords(rows) && BareListsAnswered(f, rows, previews)
    requires limit > |Slice(containers, c.containerOffset, limit)|
    ensures FindOver(containers, true, BareSource(f, rows, previews), c, limit).next == None
  {
    var room := limit - |Slice(containers, c.containerOffset, limit)|;
    var slice := Slice(rows, c.assetOffset, RowsAsked(room));
    assert AllRecords(slice);
    OnlyRecordsCount(slice);
    BareListEndsThePaging(f, rows, previews, containers, c, limit);
  }

  /** Main result. A client that follows continuations over an upstream of bare lists gets all
      containers, and then of the assets one page: that of the first request with room for any. */
  lemma {:induction false} FollowingBareListsReturnsOnePage(f: Formats, rows: seq<Row>, previews: seq<string> -> Reply,
                                                            containers: seq<string>, o: nat, limits: nat -> nat, i: nat)
    returns (room: nat)
    requires AllRecords(rows) && BareListsAnswered(f, rows, previews) && Positive(limits) && o <= |containers|
    requires TotalsWithin(BareSource(f, rows, previews), MAX_LIMIT)
    ensures room >= 1
    ensures FollowOver(containers, true, BareSource(f, rows, previews), MAX_LIMIT, Cursor(o, 0), limits, i)
         == Containers(containers[o..]) + Images(BareSource(f, rows, previews)(0, room).items)
    decreases |containers| - o, MAX_LIMIT
  {
    var list, c, limit := BareSource(f, rows, previews), Cursor(o, 0), limits(i);
    SliceInside(containers, o, limit);
    var m := Min(|containers|, o + limit);
    if limit > |Slice(containers, o, limit)| {
      room := limit - |Slice(containers, o, limit)|;
      BareObjectsEndThePaging(f, rows, previews, containers, c, limit);
      assert containers[o..m] == containers[o..];
    } else {
      room := ContainersOnlyThenRest(f, rows, previews, containers, o, limits, i);
    }
  }

  lemma ContainersOnlyPage(containers: seq<string>, list: (nat, nat) -> AssetPage, o: nat, limit: nat)
    requires o <= |containers| && limit == |Slice(containers, o, limit)|
    ensures o + limit <= |containers|
    ensures FindOver(containers, true, list, Cursor(o, 0), limit)
         == FindResult(Containers(containers[o..o + limit]),
                       if o + limit < |containers| || 0 < list(0, 1).total then Some(Cursor(o + limit, 0)) else None)
  {
    SliceInside(containers, o, limit);
  }

  lemma {:induction false} ContainersOnlyThenRest(f: Formats, rows: seq<Row>, previews: seq<string> -> Reply,
                                                  containers: seq<string>, o: nat, limits: nat -> nat, i: nat)
    returns (room: nat)
    requires AllRecords(rows) && BareListsAnswered(f, rows, previews) && Positive(limits) && o <= |containers|
    requires TotalsWithin(BareSource(f, rows, previews), MAX_LIMIT)
    requires limits(i) == |Slice(containers, o, limits(i))|
    ensures room >= 1
    ensures FollowOver(containers, true, BareSource(f, rows, previews), MAX_LIMIT, Cursor(o, 0), limits, i)
         == Containers(containers[o..]) + Images(BareSource(f, rows, previews)(0, room).items)
    decreases |containers| - o, 0
  {
    hide FindOver, BareSource, Containers, Images, Slice, BareListsAnswered;
    var list, m := BareSource(f, rows, previews), o + limits(i);
    ContainersOnlyPage(containers, list, o, limits(i));
    JoinContainers(containers, o, m);
    if m < |containers| || 0 < list(0, 1).total {
      room := FollowingBareListsReturnsOnePage(f, rows, previews, containers, m, limits, i + 1);
      Grouped(Containers(containers[o..m]), Containers(containers[m..]), Images(list(0, room).items));
    } else {
      room := 1;
      NoBareRows(f, rows, previews);
      NoContainersLeft(containers);
      assert containers[m..] == [] && containers[o..m] == containers[o..];
      assert Containers(containers[o..]) + [] == Containers(containers[o..]);
    }
  }

  lemma Grouped<T>(x: seq<T>, y: seq<T>, z: seq<T>)
    ensures x + (y + z) == (x + y) + z
  {
  }

  lemma NoBareRows(f: Formats, rows: seq<Row>, previews: seq<string> -> Reply)
    requires AllRecords(rows) && BareListsAnswered(f, rows, previews)
    ensures BareSource(f, rows, previews)(0, 1).total <= 0 ==> BareSource(f, rows, previews)(0, 1).items == []
  {
    assert ListLiveAssets(f, Bare(Slice(rows, 0, RowsAsked(1))), previews).Page?;
    KeepNothing();
    assert SupportedRefs(f, []) == [];
  }
}
