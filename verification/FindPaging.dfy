/**
 Paging of the find endpoint: containers first, then assets, behind one cursor. Assets are
 advanced by rows scanned, not by rows kept.
*/
module FindPaging {
  import opened Bounds
  import opened Options

  /** A stable asset source: each upstream row with the asset it yields, if it is kept, the
      total it always reports, and the most rows it serves at once, if it has such a limit. */
  datatype Backend = Backend(rows: seq<Option<string>>, total: int, maxRows: Option<nat>)

  datatype AssetPage = AssetPage(items: seq<string>, total: int, scanned: Option<int>)

  datatype Resource = Container(id: string) | Image(id: string)

  datatype Query = Query(containers: seq<string>, includesImages: bool, backend: Backend)

  datatype Cursor = Cursor(containerOffset: nat, assetOffset: nat)

  const FirstPage := Cursor(0, 0)

  datatype FindResult = FindResult(resources: seq<Resource>, next: Option<Cursor>)

  /** A Python slice: the bounds are clipped to the sequence. */
  function Slice<T>(s: seq<T>, from: nat, count: nat): seq<T> {
    if from >= |s| then [] else s[from..Min(|s|, from + count)]
  }

  /** The assets of the rows that are kept, in order. */
  function Kept(rows: seq<Option<string>>): seq<string> {
    if rows == [] then []
    else (if rows[0].Some? then [rows[0].value] else []) + Kept(rows[1..])
  }

  function ListAssets(b: Backend, offset: nat, limit: nat): AssetPage {
    var count := if b.maxRows.Some? then Max(1, Min(limit, b.maxRows.value)) else limit;
    var rows := Slice(b.rows, offset, count);
    AssetPage(Kept(rows), b.total, Some(|rows|))
  }

  /** The fixture backend: slices of what the user may see, all of it counted. */
  function ListFixtureAssets(visible: seq<string>, offset: nat, limit: nat): AssetPage {
    var items := Slice(visible, offset, limit);
    AssetPage(items, |visible|, Some(|items|))
  }

  function AdvanceAssetOffset(current: nat, page: AssetPage, total: int): nat {
    var consumed := if page.scanned.Some? then Max(0, page.scanned.value) else |page.items|;
    if consumed <= 0 then Max(current, total) else current + consumed
  }

  function Containers(ids: seq<string>): seq<Resource> {
    seq(|ids|, i requires 0 <= i < |ids| => Container(ids[i]))
  }

  function Images(ids: seq<string>): seq<Resource> {
    seq(|ids|, i requires 0 <= i < |ids| => Image(ids[i]))
  }

  /** One page of the find endpoint. */
  function Find(q: Query, c: Cursor, limit: nat): FindResult {
    var sliced := Slice(q.containers, c.containerOffset, limit);
    var fetches := q.includesImages && limit > |sliced|;
    var page := ListAssets(q.backend, c.assetOffset, if fetches then limit - |sliced| else 0);
    var assetOffset := if fetches then AdvanceAssetOffset(c.assetOffset, page, q.backend.total) else c.assetOffset;
    var assetTotal := if q.includesImages then q.backend.total else 0;
    var containerOffset := c.containerOffset + |sliced|;
    FindResult(Containers(sliced) + (if fetches then Images(page.items) else []),
               if containerOffset < |q.containers| || assetOffset < assetTotal
               then Some(Cursor(containerOffset, assetOffset)) else None)
  }

  /** One page of the find endpoint over any asset listing, called with an offset and a limit. */
  function FindOver(containers: seq<string>, includesImages: bool, list: (nat, nat) -> AssetPage, c: Cursor, limit: nat)
    : FindResult
  {
    var sliced := Slice(containers, c.containerOffset, limit);
    var containerOffset := c.containerOffset + |sliced|;
    if includesImages && limit > |sliced| then
      var page := list(c.assetOffset, limit - |sliced|);
      var assetOffset := AdvanceAssetOffset(c.assetOffset, page, page.total);
      FindResult(Containers(sliced) + Images(page.items),
                 if containerOffset < |containers| || assetOffset < page.total
                 then Some(Cursor(containerOffset, assetOffset)) else None)
    else
      var total := if includesImages then list(0, 1).total else 0;
      FindResult(Containers(sliced),
                 if containerOffset < |containers| || c.assetOffset < total
                 then Some(Cursor(containerOffset, c.assetOffset)) else None)
  }

  /** The listing answers as this backend would. */
  ghost predicate ListsBackend(list: (nat, nat) -> AssetPage, b: Backend) {
    forall offset: nat, limit: nat :: list(offset, limit) == ListAssets(b, offset, limit)
  }

  /** Over a listing of its backend the endpoint is the one studied below. */
  lemma FindOverBackend(q: Query, list: (nat, nat) -> AssetPage, c: Cursor, limit: nat)
    requires ListsBackend(list, q.backend)
    ensures FindOver(q.containers, q.includesImages, list, c, limit) == Find(q, c, limit)
  {
    hide Kept, Images, Containers, Slice;
    var found := Containers(Slice(q.containers, c.containerOffset, limit));
    assert found + [] == found;
  }

  method BuildImageResponses(items: seq<string>) returns (images: seq<Resource>)
    ensures images == Images(items)
  {
    images := [];
    for i := 0 to |items|
      invariant images == Images(items[..i])
    {
      images := images + [Image(items[i])];
    }
    assert items[..|items|] == items;
  }

  /** The handler as written, step by step. */
  method FindResources(containers: seq<string>, includesImages: bool, list: (nat, nat) -> AssetPage, c: Cursor,
                       limit: nat)
    returns (r: FindResult)
    ensures r == FindOver(containers, includesImages, list, c, limit)
  {
    hide Images, Containers;
    var remaining := limit;
    var resources: seq<Resource> := [];
    var sliced := Slice(containers, c.containerOffset, remaining);
    resources := resources + Containers(sliced);
    assert resources == Containers(sliced);
    remaining := remaining - |sliced|;

    var assetOffset := c.assetOffset;
    var assetTotal := 0;
    if includesImages && remaining > 0 {
      var assets := list(assetOffset, remaining);
      assetTotal := assets.total;
      var images := BuildImageResponses(assets.items);
      resources := resources + images;
      assetOffset := AdvanceAssetOffset(assetOffset, assets, assetTotal);
    } else if includesImages {
      var probe := list(0, 1);
      assetTotal := probe.total;
    }

    var containerOffset := c.containerOffset + |sliced|;
    var next: Option<Cursor> := None;
    if containerOffset < |containers| || assetOffset < assetTotal {
      next := Some(Cursor(containerOffset, assetOffset));
    }
    r := FindResult(resources, next);
  }

  // ---------------------------------------------------------------- following continuations

  ghost predicate Positive(limits: nat -> nat) {
    forall i :: limits(i) >= 1
  }

  function Above(n: int, offset: nat): nat {
    if offset < n then n - offset else 0
  }

  /** What is left to scan bounds how many more pages there can be. */
  function Remaining(q: Query, c: Cursor): nat {
    Above(|q.containers|, c.containerOffset) + Above(q.backend.total, c.assetOffset)
  }

  lemma EachPageMakesProgress(q: Query, c: Cursor, limit: nat)
    requires limit >= 1
    ensures var next := Find(q, c, limit).next; next.Some? ==> Remaining(q, next.value) < Remaining(q, c)
  {
  }

  /** All resources a client sees that follows continuations, asking for `limits(i)` on the
      `i`-th page. That this is defined at all is the proof that it ends. */
  ghost function Follow(q: Query, c: Cursor, limits: nat -> nat, i: nat): seq<Resource>
    requires Positive(limits)
    decreases Remaining(q, c)
  {
    var r := Find(q, c, limits(i));
    EachPageMakesProgress(q, c, limits(i));
    r.resources + if r.next.Some? then Follow(q, r.next.value, limits, i + 1) else []
  }

  /** Everything, each thing once and in order. */
  function Everything(q: Query): seq<Resource> {
    Containers(q.containers) + if q.includesImages then Images(Kept(q.backend.rows)) else []
  }

  // ---------------------------------------------------------------- lists

  lemma {:induction false} KeptConcat(a: seq<Option<string>>, b: seq<Option<string>>)
    ensures Kept(a + b) == Kept(a) + Kept(b)
    decreases |a|
  {
    if a == [] {
      assert a + b == b;
    } else {
      assert (a + b)[1..] == a[1..] + b;
      KeptConcat(a[1..], b);
    }
  }

  lemma KeptSplit(rows: seq<Option<string>>, a: nat, b: nat, c: nat)
    requires a <= b <= c <= |rows|
    ensures Kept(rows[a..c]) == Kept(rows[a..b]) + Kept(rows[b..c])
  {
    assert rows[a..c] == rows[a..b] + rows[b..c];
    KeptConcat(rows[a..b], rows[b..c]);
  }

  lemma KeptPrefix(rows: seq<Option<string>>, k: nat)
    requires k <= |rows|
    ensures Kept(rows) == Kept(rows[..k]) + Kept(rows[k..])
  {
    assert rows == rows[..k] + rows[k..];
    KeptConcat(rows[..k], rows[k..]);
  }

  lemma NothingLater(rows: seq<Option<string>>, a: nat, k: nat)
    requires a <= k <= |rows| && Kept(rows[a..]) == []
    ensures Kept(rows[k..]) == []
  {
    var tail := rows[a..];
    KeptPrefix(tail, k - a);
    assert tail[k - a..] == rows[k..];
  }

  lemma PastTheEndNothing(rows: seq<Option<string>>, a: nat, k: nat)
    requires a <= k <= |rows| && Kept(rows[a..]) == []
    ensures Kept(rows[..k]) == Kept(rows)
  {
    NothingLater(rows, a, k);
    KeptPrefix(rows, k);
  }

  lemma ResourcesConcat(a: seq<string>, b: seq<string>)
    ensures Images(a + b) == Images(a) + Images(b)
    ensures Containers(a + b) == Containers(a) + Containers(b)
  {
  }

  // ---------------------------------------------------------------- completeness

  /** Cursors the endpoint hands out: no asset is fetched before the containers are through. */
  ghost predicate Reachable(q: Query, c: Cursor) {
    && c.containerOffset <= |q.containers|
    && c.assetOffset <= |q.backend.rows|
    && (c.containerOffset < |q.containers| ==> c.assetOffset == 0)
  }

  /** The row before which a page that starts at `c` stops. */
  function NextRow(q: Query, c: Cursor, limit: nat): nat {
    var taken := |Slice(q.containers, c.containerOffset, limit)|;
    if q.includesImages && limit > taken
    then c.assetOffset + ListAssets(q.backend, c.assetOffset, limit - taken).scanned.value
    else c.assetOffset
  }

  lemma SliceInside<T>(s: seq<T>, from: nat, count: nat)
    requires from <= |s|
    ensures Slice(s, from, count) == s[from..Min(|s|, from + count)]
  {
  }

  lemma RowsTaken(b: Backend, offset: nat, limit: nat)
    requires offset <= |b.rows| && limit >= 1
    ensures var page := ListAssets(b, offset, limit);
            && page.scanned.Some? && 0 <= page.scanned.value <= |b.rows| - offset
            && page.items == Kept(b.rows[offset..offset + page.scanned.value])
            && (offset < |b.rows| ==> page.scanned.value > 0)
  {
    SliceInside(b.rows, offset, if b.maxRows.Some? then Max(1, Min(limit, b.maxRows.value)) else limit);
  }

  /** The rows a page takes. */
  lemma PageTakesRows(q: Query, c: Cursor, limit: nat)
    requires Reachable(q, c) && limit >= 1
    ensures var k := NextRow(q, c, limit);
            && c.assetOffset <= k <= |q.backend.rows|
            && (c.containerOffset == |q.containers| && q.includesImages && c.assetOffset < |q.backend.rows| ==>
                    k > c.assetOffset)
            && (!q.includesImages ==> k == c.assetOffset)
  {
    var taken := |Slice(q.containers, c.containerOffset, limit)|;
    if q.includesImages && limit > taken { RowsTaken(q.backend, c.assetOffset, limit - taken); }
  }

  lemma NoRowsNoImages(rows: seq<Option<string>>, a: nat, resources: seq<Resource>)
    requires a <= |rows|
    ensures resources + Images(Kept(rows[a..a])) == resources
  {
    assert Kept(rows[a..a]) == [];
    assert Images([]) == [];
  }

  lemma PageWithAssetsReturns(q: Query, c: Cursor, limit: nat)
    requires Reachable(q, c) && q.includesImages && limit > |Slice(q.containers, c.containerOffset, limit)|
    ensures var k := NextRow(q, c, limit);
            && c.assetOffset <= k <= |q.backend.rows|
            && Find(q, c, limit).resources
               == Containers(Slice(q.containers, c.containerOffset, limit))
                  + Images(Kept(q.backend.rows[c.assetOffset..k]))
  {
    hide Kept, Images, Containers;
    RowsTaken(q.backend, c.assetOffset, limit - |Slice(q.containers, c.containerOffset, limit)|);
  }

  lemma PageWithoutAssetsReturns(q: Query, c: Cursor, limit: nat)
    requires Reachable(q, c) && !(q.includesImages && limit > |Slice(q.containers, c.containerOffset, limit)|)
    ensures NextRow(q, c, limit) == c.assetOffset
    ensures Find(q, c, limit).resources == Containers(Slice(q.containers, c.containerOffset, limit))
  {
    var found := Containers(Slice(q.containers, c.containerOffset, limit));
    assert found + [] == found;
  }

  /** What a page returns. */
  lemma PageReturns(q: Query, c: Cursor, limit: nat)
    requires Reachable(q, c) && limit >= 1
    ensures var k := NextRow(q, c, limit); var m := Min(|q.containers|, c.containerOffset + limit);
            && c.assetOffset <= k <= |q.backend.rows|
            && Find(q, c, limit).resources
               == Containers(q.containers[c.containerOffset..m]) + Images(Kept(q.backend.rows[c.assetOffset..k]))
  {
    SliceInside(q.containers, c.containerOffset, limit);
    if q.includesImages && limit > |Slice(q.containers, c.containerOffset, limit)| {
      PageWithAssetsReturns(q, c, limit);
    } else {
      PageWithoutAssetsReturns(q, c, limit);
      NoRowsNoImages(q.backend.rows, c.assetOffset, Containers(Slice(q.containers, c.containerOffset, limit)));
    }
  }

  /** The cursor a page hands out. */
  lemma PageContinues(q: Query, c: Cursor, limit: nat)
    requires Reachable(q, c) && limit >= 1
    ensures var next, k := Find(q, c, limit).next, NextRow(q, c, limit);
            var m := Min(|q.containers|, c.containerOffset + limit);
            && (next.Some? ==> next.value == Cursor(m, k) && Reachable(q, next.value))
            && (next.None? ==> m == |q.containers| && (q.includesImages ==>
                  k >= Min(|q.backend.rows|, q.backend.total)))
  {
    PageTakesRows(q, c, limit);
    var taken := |Slice(q.containers, c.containerOffset, limit)|;
    if q.includesImages && limit > taken { RowsTaken(q.backend, c.assetOffset, limit - taken); }
  }

  lemma JoinRows(rows: seq<Option<string>>, a: nat, b: nat, k: nat)
    requires a <= b <= k <= |rows|
    ensures Images(Kept(rows[a..k])) == Images(Kept(rows[a..b])) + Images(Kept(rows[b..k]))
  {
    KeptSplit(rows, a, b, k);
    ResourcesConcat(Kept(rows[a..b]), Kept(rows[b..k]));
  }

  lemma JoinContainers(cs: seq<string>, o: nat, m: nat)
    requires o <= m <= |cs|
    ensures Containers(cs[o..]) == Containers(cs[o..m]) + Containers(cs[m..])
  {
    assert cs[o..] == cs[o..m] + cs[m..];
    ResourcesConcat(cs[o..m], cs[m..]);
  }

  lemma JoinPages(cs: seq<string>, rows: seq<Option<string>>, o: nat, m: nat, a: nat, b: nat, k: nat)
    requires o <= m <= |cs| && a <= b <= k <= |rows|
    requires m == |cs| || a == b
    ensures (Containers(cs[o..m]) + Images(Kept(rows[a..b]))) + (Containers(cs[m..]) + Images(Kept(rows[b..k])))
         == Containers(cs[o..]) + Images(Kept(rows[a..k]))
  {
    JoinRows(rows, a, b, k);
    JoinContainers(cs, o, m);
    if m == |cs| {
      assert Containers(cs[m..]) == [];
    } else {
      assert Kept(rows[a..b]) == [];
    }
    Interleave(Containers(cs[o..m]), Images(Kept(rows[a..b])), Containers(cs[m..]), Images(Kept(rows[b..k])));
  }

  lemma Interleave<T>(w: seq<T>, x: seq<T>, y: seq<T>, z: seq<T>)
    requires x == [] || y == []
    ensures (w + x) + (y + z) == (w + y) + (x + z)
  {
  }

  /** The row before which following continuations stops. */
  ghost function StopRow(q: Query, c: Cursor, limits: nat -> nat, i: nat): nat
    requires Positive(limits)
    decreases Remaining(q, c)
  {
    var r := Find(q, c, limits(i));
    EachPageMakesProgress(q, c, limits(i));
    if r.next.Some? then StopRow(q, r.next.value, limits, i + 1) else NextRow(q, c, limits(i))
  }

  /** Following continuations from a reachable cursor returns the remaining containers and then
      the kept rows of a prefix of what remains. The prefix reaches at least the reported total. */
  lemma {:induction false} FollowTakesAPrefix(q: Query, c: Cursor, limits: nat -> nat, i: nat)
    requires Positive(limits) && Reachable(q, c)
    ensures var k := StopRow(q, c, limits, i);
            && c.assetOffset <= k <= |q.backend.rows|
            && Follow(q, c, limits, i)
               == Containers(q.containers[c.containerOffset..]) + Images(Kept(q.backend.rows[c.assetOffset..k]))
            && (q.includesImages ==> k >= Min(|q.backend.rows|, q.backend.total))
            && (q.includesImages && c.containerOffset == |q.containers| && c.assetOffset < |q.backend.rows| ==>
                    k > c.assetOffset)
            && (!q.includesImages ==> k == c.assetOffset)
    decreases Remaining(q, c)
  {
    hide Kept, Images, Containers, Slice;
    var r, b := Find(q, c, limits(i)), NextRow(q, c, limits(i));
    PageTakesRows(q, c, limits(i));
    PageReturns(q, c, limits(i));
    PageContinues(q, c, limits(i));
    if r.next.Some? {
      EachPageMakesProgress(q, c, limits(i));
      FollowTakesAPrefix(q, r.next.value, limits, i + 1);
      JoinPages(q.containers, q.backend.rows, c.containerOffset, r.next.value.containerOffset, c.assetOffset, b,
                StopRow(q, c, limits, i));
    } else {
      assert q.containers[c.containerOffset..] == q.containers[c.containerOffset..|q.containers|];
    }
  }

  /** From the first page: all containers, then the kept rows before the stop row. */
  lemma FollowFromFirst(q: Query, limits: nat -> nat)
    requires Positive(limits)
    ensures var k := StopRow(q, FirstPage, limits, 0);
            k <= |q.backend.rows| && Follow(q, FirstPage, limits, 0)
              == Containers(q.containers) + Images(Kept(q.backend.rows[..k]))
  {
    FollowTakesAPrefix(q, FirstPage, limits, 0);
    var k := StopRow(q, FirstPage, limits, 0);
    assert q.containers[0..] == q.containers && q.backend.rows[0..k] == q.backend.rows[..k];
  }

  /** Main result. Over a stable backend whose reported total is not below its rows, following
      continuations from the first page ends and returns every container once in order and then
      every kept asset once in order, whatever limits the client asks for on each page. */
  lemma FollowingReturnsEverything(q: Query, limits: nat -> nat)
    requires Positive(limits) && q.backend.total >= |q.backend.rows|
    ensures Follow(q, FirstPage, limits, 0) == Everything(q)
  {
    FollowTakesAPrefix(q, FirstPage, limits, 0);
    FollowFromFirst(q, limits);
    var k, rows := StopRow(q, FirstPage, limits, 0), q.backend.rows;
    if q.includesImages {
      assert k == |rows| && rows[..k] == rows;
    } else {
      assert k == 0 && Kept(rows[..k]) == [];
    }
  }

  // ---------------------------------------------------------------- when the total is too low

  /** The rows every client gets past: those below the reported total and, when there is no
      container for the first page to return, the first row. */
  function Assured(q: Query): nat {
    Min(|q.backend.rows|, Max(q.backend.total, if q.containers == [] then 1 else 0))
  }

  lemma StopsAfterTheAssuredRows(q: Query, limits: nat -> nat)
    requires Positive(limits) && q.includesImages
    ensures Assured(q) <= StopRow(q, FirstPage, limits, 0) <= |q.backend.rows|
  {
    FollowTakesAPrefix(q, FirstPage, limits, 0);
  }

  /** The client that asks for all containers and then for one thing at a time. */
  function Sparing(q: Query): nat -> nat {
    i => if i == 0 && q.containers != [] then |q.containers| else 1
  }

  lemma {:induction false} OneRowAtATime(q: Query, a: nat, limits: nat -> nat, i: nat)
    requires Positive(limits) && q.includesImages && (forall j :: j >= i ==> limits(j) == 1)
    requires a < |q.backend.rows|
    ensures StopRow(q, Cursor(|q.containers|, a), limits, i) == Max(a + 1, Min(|q.backend.rows|, q.backend.total))
    decreases |q.backend.rows| - a
  {
    var c, rows := Cursor(|q.containers|, a), q.backend.rows;
    var r := Find(q, c, limits(i));
    assert NextRow(q, c, 1) == a + 1;
    if r.next.Some? {
      assert r.next.value == Cursor(|q.containers|, a + 1);
      if a + 1 < |rows| {
        OneRowAtATime(q, a + 1, limits, i + 1);
      } else {
        FollowTakesAPrefix(q, r.next.value, limits, i + 1);
      }
    }
  }

  lemma SparingStopsAtTheAssuredRows(q: Query)
    requires q.includesImages
    ensures Positive(Sparing(q)) && StopRow(q, FirstPage, Sparing(q), 0) == Assured(q)
  {
    var limits := Sparing(q);
    assert Positive(limits);
    if q.backend.rows == [] {
      FollowTakesAPrefix(q, FirstPage, limits, 0);
    } else if q.containers == [] {
      OneRowAtATime(q, 0, limits, 0);
    } else {
      var r := Find(q, FirstPage, limits(0));
      assert NextRow(q, FirstPage, limits(0)) == 0;
      if r.next.Some? {
        assert r.next.value == Cursor(|q.containers|, 0);
        OneRowAtATime(q, 0, limits, 1);
      }
    }
  }

  lemma CompleteIfNothingIsPast(q: Query, limits: nat -> nat)
    requires q.includesImages && Positive(limits) && Kept(q.backend.rows[Assured(q)..]) == []
    ensures Follow(q, FirstPage, limits, 0) == Everything(q)
  {
    StopsAfterTheAssuredRows(q, limits);
    FollowFromFirst(q, limits);
    PastTheEndNothing(q.backend.rows, Assured(q), StopRow(q, FirstPage, limits, 0));
  }

  lemma SparingMissesWhatIsPast(q: Query)
    requires q.includesImages && Follow(q, FirstPage, Sparing(q), 0) == Everything(q)
    ensures Kept(q.backend.rows[Assured(q)..]) == []
  {
    var rows, a := q.backend.rows, Assured(q);
    SparingStopsAtTheAssuredRows(q);
    FollowFromFirst(q, Sparing(q));
    KeptPrefix(rows, a);
    assert |Everything(q)| == |q.containers| + |Kept(rows)|;
    assert |Follow(q, FirstPage, Sparing(q), 0)| == |q.containers| + |Kept(rows[..a])|;
  }

  /** Main result, exactly when the endpoint is complete: every client gets everything if and
      only if no row past the assured ones would have been kept. A total at or above the number
      of rows is one way to meet this. */
  lemma CompleteExactlyIfNothingKeptIsPastTheTotal(q: Query)
    requires q.includesImages
    ensures (forall limits: nat -> nat :: Positive(limits) ==> Follow(q, FirstPage, limits, 0) == Everything(q))
       <==> Kept(q.backend.rows[Assured(q)..]) == []
  {
    if Kept(q.backend.rows[Assured(q)..]) == [] {
      forall limits: nat -> nat | Positive(limits) ensures Follow(q, FirstPage, limits, 0) == Everything(q) {
        CompleteIfNothingIsPast(q, limits);
      }
    }
    if forall limits: nat -> nat :: Positive(limits) ==> Follow(q, FirstPage, limits, 0) == Everything(q) {
      SparingStopsAtTheAssuredRows(q);
      SparingMissesWhatIsPast(q);
    }
  }

  // ---------------------------------------------------------------- over a listing

  /** No page reports a larger total than `bound`. */
  ghost predicate TotalsWithin(list: (nat, nat) -> AssetPage, bound: int) {
    forall offset: nat, limit: nat :: list(offset, limit).total <= bound
  }

  /** What is left to scan, for a listing whose totals are within `bound`. */
  function LeftToScan(containers: seq<string>, bound: int, c: Cursor): nat {
    Above(|containers|, c.containerOffset) + Above(bound, c.assetOffset)
  }

  lemma EachPageOfAListingMakesProgress(containers: seq<string>, includesImages: bool, list: (nat, nat) -> AssetPage,
                                        bound: int, c: Cursor, limit: nat)
    requires limit >= 1 && TotalsWithin(list, bound)
    ensures var next := FindOver(containers, includesImages, list, c, limit).next;
            next.Some? ==> LeftToScan(containers, bound, next.value) < LeftToScan(containers, bound, c)
  {
    var sliced := Slice(containers, c.containerOffset, limit);
    if includesImages && limit > |sliced| {
      assert list(c.assetOffset, limit - |sliced|).total <= bound;
    } else {
      assert list(0, 1).total <= bound;
    }
  }

  /** All resources a client sees that follows continuations over a listing. */
  ghost function FollowOver(containers: seq<string>, includesImages: bool, list: (nat, nat) -> AssetPage, bound: int,
                            c: Cursor, limits: nat -> nat, i: nat)
    : seq<Resource>
    requires Positive(limits) && TotalsWithin(list, bound)
    decreases LeftToScan(containers, bound, c)
  {
    var r := FindOver(containers, includesImages, list, c, limits(i));
    EachPageOfAListingMakesProgress(containers, includesImages, list, bound, c, limits(i));
    r.resources +
    if r.next.Some? then FollowOver(containers, includesImages, list, bound, r.next.value, limits, i + 1) else []
  }

  lemma {:induction false} FollowOverBackend(q: Query, list: (nat, nat) -> AssetPage, c: Cursor, limits: nat -> nat,
                                             i: nat)
    requires Positive(limits) && ListsBackend(list, q.backend) && TotalsWithin(list, q.backend.total)
    ensures FollowOver(q.containers, q.includesImages, list, q.backend.total, c, limits, i) == Follow(q, c, limits, i)
    decreases Remaining(q, c)
  {
    hide Find, FindOver, ListsBackend, Remaining, LeftToScan;
    var r := Find(q, c, limits(i));
    FindOverBackend(q, list, c, limits(i));
    EachPageMakesProgress(q, c, limits(i));
    if r.next.Some? { FollowOverBackend(q, list, r.next.value, limits, i + 1); }
  }

  // ---------------------------------------------------------------- the fixture backend

  function AllKept(visible: seq<string>): seq<Option<string>> {
    seq(|visible|, i requires 0 <= i < |visible| => Some(visible[i]))
  }

  lemma {:induction false} KeptAllKept(visible: seq<string>)
    ensures Kept(AllKept(visible)) == visible
  {
    if visible != [] {
      assert AllKept(visible)[1..] == AllKept(visible[1..]);
      KeptAllKept(visible[1..]);
    }
  }

  /** The fixture listing is such a source, with nothing filtered and an exact total, so
      following continuations over it always returns everything. */
  lemma FixtureListingIsAPagedSource(visible: seq<string>, offset: nat, limit: nat)
    ensures ListFixtureAssets(visible, offset, limit)
      == ListAssets(Backend(AllKept(visible), |visible|, None), offset, limit)
    ensures Kept(AllKept(visible)) == visible
  {
    KeptAllKept(visible);
    KeptAllKept(Slice(visible, offset, limit));
    assert AllKept(Slice(visible, offset, limit)) == Slice(AllKept(visible), offset, limit);
  }

  /** Main result. Over the fixture listing every client sees every container once in order and
      then every visible asset once in order. */
  lemma FollowingTheFixtureReturnsEverything(containers: seq<string>, visible: seq<string>, limits: nat -> nat)
    requires Positive(limits)
    ensures var list := (offset: nat, limit: nat) => ListFixtureAssets(visible, offset, limit);
            && TotalsWithin(list, |visible|)
            && FollowOver(containers, true, list, |visible|, FirstPage, limits, 0)
               == Containers(containers) + Images(visible)
  {
    var q := Query(containers, true, Backend(AllKept(visible), |visible|, None));
    var list := (offset: nat, limit: nat) => ListFixtureAssets(visible, offset, limit);
    forall offset: nat, limit: nat ensures list(offset, limit) == ListAssets(q.backend, offset, limit) {
      FixtureListingIsAPagedSource(visible, offset, limit);
    }
    FollowOverBackend(q, list, FirstPage, limits, 0);
    FollowingReturnsEverything(q, limits);
    KeptAllKept(visible);
  }

  // ---------------------------------------------------------------- one page

  lemma {:induction false} KeptIsNoLonger(rows: seq<Option<string>>)
    ensures |Kept(rows)| <= |rows|
    decreases |rows|
  {
    if rows != [] { KeptIsNoLonger(rows[1..]); }
  }

  /** Main result. No page holds more than was asked for, whatever the cursor. */
  lemma PageIsWithinTheLimit(q: Query, c: Cursor, limit: nat)
    requires limit >= 1
    ensures |Find(q, c, limit).resources| <= limit
  {
    var taken := |Slice(q.containers, c.containerOffset, limit)|;
    if q.includesImages && limit > taken {
      var room, most := limit - taken, q.backend.maxRows;
      var count := if most.Some? then Max(1, Min(room, most.value)) else room;
      KeptIsNoLonger(Slice(q.backend.rows, c.assetOffset, count));
    }
  }

  /** A window of two lists in a row, of which the first is used up first. */
  lemma WindowOfTwo<T>(x: seq<T>, y: seq<T>, o: nat, a: nat, m: nat, k: nat, limit: nat)
    requires o <= |x| && a <= |y| && (o < |x| ==> a == 0)
    requires m == Min(|x|, o + limit) && k == Min(|y|, a + limit - (m - o))
    ensures x[o..m] + y[a..k] == Slice(x + y, o + a, limit)
  {
    var window := Slice(x + y, o + a, limit);
    assert |window| == m - o + k - a;
  }

  lemma FixtureRowsTaken(q: Query, visible: seq<string>, c: Cursor, limit: nat)
    requires q.includesImages && q.backend == Backend(AllKept(visible), |visible|, None)
    requires Reachable(q, c) && limit >= 1
    ensures var m := Min(|q.containers|, c.containerOffset + limit);
            NextRow(q, c, limit) == Min(|visible|, c.assetOffset + limit - (m - c.containerOffset))
  {
    SliceInside(q.containers, c.containerOffset, limit);
  }

  lemma WindowOfResources(ids: seq<string>, from: nat, to: nat)
    requires from <= to <= |ids|
    ensures Containers(ids)[from..to] == Containers(ids[from..to])
    ensures Images(ids)[from..to] == Images(ids[from..to])
  {
  }

  lemma FixturePageReturns(q: Query, visible: seq<string>, c: Cursor, limit: nat)
    requires q.includesImages && q.backend == Backend(AllKept(visible), |visible|, None)
    requires Reachable(q, c) && limit >= 1
    ensures var m := Min(|q.containers|, c.containerOffset + limit);
            var k := Min(|visible|, c.assetOffset + limit - (m - c.containerOffset));
            && c.assetOffset <= k
            && Find(q, c, limit).resources
               == Containers(q.containers)[c.containerOffset..m] + Images(visible)[c.assetOffset..k]
  {
    hide Find, NextRow;
    var m, k := Min(|q.containers|, c.containerOffset + limit), NextRow(q, c, limit);
    FixtureRowsTaken(q, visible, c, limit);
    PageReturns(q, c, limit);
    KeptAllKept(visible[c.assetOffset..k]);
    assert AllKept(visible[c.assetOffset..k]) == AllKept(visible)[c.assetOffset..k];
    WindowOfResources(q.containers, c.containerOffset, m);
    WindowOfResources(visible, c.assetOffset, k);
  }

  /** Main result. Over the fixture listing a page is a window of the whole listing, containers and
      assets: as many resources as asked for, from where the cursor stands, and the next cursor
      stands where the page ends, unless that is the end of the listing. */
  lemma FixturePageIsAWindow(q: Query, visible: seq<string>, c: Cursor, limit: nat)
    requires q.includesImages && q.backend == Backend(AllKept(visible), |visible|, None)
    requires Reachable(q, c) && limit >= 1
    ensures var r, end := Find(q, c, limit), c.containerOffset + c.assetOffset + limit;
            && r.resources == Slice(Everything(q), c.containerOffset + c.assetOffset, limit)
            && (r.next.Some? <==> end < |Everything(q)|)
            && (r.next.Some? ==> r.next.value.containerOffset + r.next.value.assetOffset == end)
  {
    var m := Min(|q.containers|, c.containerOffset + limit);
    var k := Min(|visible|, c.assetOffset + limit - (m - c.containerOffset));
    KeptAllKept(visible);
    FixturePageContinues(q, visible, c, limit);
    FixturePageReturns(q, visible, c, limit);
    var x, y := Containers(q.containers), Images(visible);
    assert Everything(q) == x + y && |x| == |q.containers| && |y| == |visible|;
    hide Find, Everything, Containers, Images, Kept, AllKept, Slice;
    WindowOfTwo(x, y, c.containerOffset, c.assetOffset, m, k, limit);
  }

  lemma FixturePageContinues(q: Query, visible: seq<string>, c: Cursor, limit: nat)
    requires q.includesImages && q.backend == Backend(AllKept(visible), |visible|, None)
    requires Reachable(q, c) && limit >= 1
    ensures var next, end := Find(q, c, limit).next, c.containerOffset + c.assetOffset + limit;
            && (next.Some? <==> end < |q.containers| + |visible|)
            && (next.Some? ==> next.value.containerOffset + next.value.assetOffset == end)
  {
    SliceInside(q.containers, c.containerOffset, limit);
  }
}
