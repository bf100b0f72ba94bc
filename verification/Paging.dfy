/** Listing deliveries page by page, newest identity first, while the ledger may be growing. */
module Paging {
  import opened Wrappers
  import opened Records
  import opened Transactions
  import opened Invariant
  import opened Evolution
  import opened System
  import opened Protocol
  import opened Guarantees

  const LARGEST_PAGE := 200

  /** One answer: the records shown, and where the next page starts when there is one. */
  datatype Page = Page(records: seq<DeliveryId>, nextCursor: Option<DeliveryId>)

  predicate Listed(s: Tables, id: DeliveryId, cursor: Option<DeliveryId>, status: Option<DeliveryStatus>) {
    && id in s.deliveries
    && Joined(s, s.deliveries[id].intent)
    && (status.Some? ==> s.deliveries[id].status == status.value)
    && (cursor.Some? ==> id < cursor.value)
  }

  predicate Descending(ids: seq<DeliveryId>) {
    forall m, n | 0 <= m < n < |ids| :: ids[n] < ids[m]
  }

  /** The rows a descending, limited query selects: the listed ones from the top. */
  ghost predicate Selects(
    s: Tables, cursor: Option<DeliveryId>, status: Option<DeliveryStatus>, limit: nat,
    rows: seq<DeliveryId>)
  {
    && Descending(rows)
    && |rows| <= limit
    && (forall id | id in rows :: Listed(s, id, cursor, status))
    && (forall id | Listed(s, id, cursor, status) && id !in rows ::
          |rows| == limit && forall row | row in rows :: id < row)
  }

  lemma NothingDescends()
    ensures Descending([])
  {
  }

  lemma DescendsOn(before: seq<DeliveryId>, now: seq<DeliveryId>)
    requires Descending(before) && Descending(now)
    requires forall id, id' | id in before && id' in now :: id' < id
    ensures Descending(before + now)
  {
    var all := before + now;
    forall m, n | 0 <= m < n < |all| ensures all[n] < all[m] {
      assert m < |before| <= n ==> all[m] in before && all[n] in now;
    }
  }

  lemma {:induction false} Greatest(ids: set<DeliveryId>, some: DeliveryId) returns (top: DeliveryId)
    requires some in ids
    ensures top in ids && forall id | id in ids :: id <= top
    decreases |ids|
  {
    top := some;
    var rest := ids - {some};
    if other :| other in rest {
      var best := Greatest(rest, other);
      top := if some < best then best else some;
    }
    forall id | id in ids ensures id <= top {
      assert id == some || id in rest;
    }
  }

  /** Any rows have a selection from the top, for any limit. */
  lemma {:induction false} TopRows(ids: set<DeliveryId>, limit: nat) returns (rows: seq<DeliveryId>)
    ensures Descending(rows) && |rows| <= limit
    ensures forall id | id in rows :: id in ids
    ensures forall id | id in ids && id !in rows :: |rows| == limit && forall row | row in rows :: id < row
    decreases limit
  {
    rows := [];
    if some :| limit > 0 && some in ids {
      var top := Greatest(ids, some);
      var rest := TopRows(ids - {top}, limit - 1);
      DescendsOn([top], rest);
      rows := [top] + rest;
      forall id | id in ids && id !in rows
        ensures |rows| == limit && forall row | row in rows :: id < row
      {
        assert id in ids - {top} && id !in rest;
      }
    }
  }

  /** One row more than the page holds is read, to learn whether there is another page. */
  function PageOf(rows: seq<DeliveryId>, limit: nat): Page
    requires 1 <= limit
  {
    if |rows| > limit then Page(rows[..limit], Some(rows[limit - 1])) else Page(rows, None)
  }

  ghost predicate Lists(
    s: Tables, cursor: Option<DeliveryId>, status: Option<DeliveryStatus>, limit: nat, page: Page)
  {
    && 1 <= limit <= LARGEST_PAGE
    && exists rows :: Selects(s, cursor, status, limit + 1, rows) && page == PageOf(rows, limit)
  }

  /** A page holds listed rows in order. Those it leaves out come after its last one, and there
      is a next page exactly when some are left out. */
  lemma PageIsTop(
    s: Tables, cursor: Option<DeliveryId>, status: Option<DeliveryStatus>, limit: nat, page: Page)
    requires Lists(s, cursor, status, limit, page)
    ensures Descending(page.records) && |page.records| <= limit && 1 <= limit <= 200
    ensures forall id | id in page.records :: Listed(s, id, cursor, status)
    ensures forall id | Listed(s, id, cursor, status) && id !in page.records ::
              page.nextCursor.Some? && id < page.nextCursor.value
    ensures page.nextCursor.Some? ==>
              && |page.records| == limit && page.records != []
              && page.nextCursor.value == page.records[|page.records| - 1]
              && exists id :: Listed(s, id, cursor, status) && id !in page.records
  {
    var rows :| Selects(s, cursor, status, limit + 1, rows) && page == PageOf(rows, limit);
    if |rows| > limit {
      assert rows == page.records + [rows[limit]];
      assert rows[limit] in rows && Listed(s, rows[limit], cursor, status);
    }
  }

  /** Every valid question has an answer. */
  lemma PageExists(s: Tables, cursor: Option<DeliveryId>, status: Option<DeliveryStatus>, limit: nat)
    requires 1 <= limit <= 200
    ensures exists page :: Lists(s, cursor, status, limit, page)
  {
    var ids := set id | id in s.deliveries && Listed(s, id, cursor, status);
    var rows := TopRows(ids, limit + 1);
    assert Selects(s, cursor, status, limit + 1, rows);
    assert Lists(s, cursor, status, limit, PageOf(rows, limit));
  }

  // Walking the pages

  function CursorOf(pages: seq<Page>, k: nat): Option<DeliveryId>
    requires k <= |pages|
  {
    if k == 0 then None else pages[k - 1].nextCursor
  }

  /** A walk reads page after page, each from the ledger it finds, starting where the page
      before said; `limits` are the page sizes asked for. */
  ghost predicate Walk(
    ledgers: seq<Tables>, status: Option<DeliveryStatus>, limits: seq<nat>, pages: seq<Page>)
    decreases |pages|
  {
    && |ledgers| == |limits| == |pages|
    && (pages != [] ==>
          var n := |pages| - 1;
          && Walk(ledgers[..n], status, limits[..n], pages[..n])
          && (n > 0 ==> pages[n - 1].nextCursor.Some?)
          && Lists(ledgers[n], CursorOf(pages, n), status, limits[n], pages[n]))
  }

  function Walked(pages: seq<Page>): seq<DeliveryId> {
    if pages == [] then [] else Walked(pages[..|pages| - 1]) + pages[|pages| - 1].records
  }

  lemma LastIsLeast(ids: seq<DeliveryId>)
    requires Descending(ids) && ids != []
    ensures forall id | id in ids :: ids[|ids| - 1] <= id
  {
  }

  lemma PageGoesOn(
    s: Tables, cursor: Option<DeliveryId>, status: Option<DeliveryStatus>, limit: nat, page: Page,
    before: seq<DeliveryId>)
    requires Lists(s, cursor, status, limit, page) && Descending(before)
    requires before != [] ==> cursor.Some? && forall id | id in before :: cursor.value <= id
    ensures Descending(before + page.records)
    ensures page.nextCursor.Some? ==>
              forall id | id in before + page.records :: page.nextCursor.value <= id
  {
    hide Lists, Descending;
    PageIsTop(s, cursor, status, limit, page);
    var now := page.records;
    forall id, id' | id in before && id' in now ensures id' < id {
      assert Listed(s, id', cursor, status);
    }
    DescendsOn(before, now);
    if page.nextCursor.Some? {
      var last := now[|now| - 1];
      LastIsLeast(now);
      forall id | id in before + now ensures last <= id {
        assert id in now || (id in before && last in now);
      }
    }
  }

  /** Pages follow each other in strictly descending order, so nothing is shown twice, whatever
      happens to the ledger in between. */
  lemma {:induction false} WalkNeverRepeats(
    ledgers: seq<Tables>, status: Option<DeliveryStatus>, limits: seq<nat>, pages: seq<Page>)
    requires Walk(ledgers, status, limits, pages)
    ensures Descending(Walked(pages))
    ensures pages != [] && pages[|pages| - 1].nextCursor.Some? ==>
              forall id | id in Walked(pages) :: pages[|pages| - 1].nextCursor.value <= id
    decreases |pages|
  {
    hide Lists, Descending;
    if pages == [] {
      NothingDescends();
    } else {
      var n := |pages| - 1;
      WalkNeverRepeats(ledgers[..n], status, limits[..n], pages[..n]);
      PageGoesOn(ledgers[n], CursorOf(pages, n), status, limits[n], pages[n], Walked(pages[..n]));
    }
  }

  lemma ListedBehind(s: Tables, id: DeliveryId, cursor: Option<DeliveryId>, status: Option<DeliveryStatus>)
    requires Listed(s, id, None, status) && (cursor.Some? ==> id < cursor.value)
    ensures Listed(s, id, cursor, status)
  {
  }

  /** What is listed throughout the walk is shown by the time the walk gets past it. */
  lemma {:induction false} WalkNeverMisses(
    ledgers: seq<Tables>, status: Option<DeliveryStatus>, limits: seq<nat>, pages: seq<Page>,
    id: DeliveryId)
    requires Walk(ledgers, status, limits, pages) && pages != []
    requires forall s | s in ledgers :: Listed(s, id, None, status)
    ensures id in Walked(pages)
            || (pages[|pages| - 1].nextCursor.Some? && id < pages[|pages| - 1].nextCursor.value)
    decreases |pages|
  {
    hide Lists, Listed, Descending;
    var n := |pages| - 1;
    PageIsTop(ledgers[n], CursorOf(pages, n), status, limits[n], pages[n]);
    assert Listed(ledgers[n], id, None, status);
    if n == 0 {
      ListedBehind(ledgers[n], id, None, status);
    } else {
      WalkNeverMisses(ledgers[..n], status, limits[..n], pages[..n], id);
      assert pages[..n][n - 1] == pages[n - 1];
      if id !in Walked(pages[..n]) {
        ListedBehind(ledgers[n], id, CursorOf(pages, n), status);
      }
    }
  }

  lemma {:induction false} WalkShowsListed(
    ledgers: seq<Tables>, status: Option<DeliveryStatus>, limits: seq<nat>, pages: seq<Page>,
    id: DeliveryId)
    requires Walk(ledgers, status, limits, pages) && id in Walked(pages)
    ensures exists s | s in ledgers :: Listed(s, id, None, status)
    decreases |pages|
  {
    hide Lists;
    var n := |pages| - 1;
    if id in pages[n].records {
      PageIsTop(ledgers[n], CursorOf(pages, n), status, limits[n], pages[n]);
      assert ledgers[n] in ledgers && Listed(ledgers[n], id, None, status);
    } else {
      WalkShowsListed(ledgers[..n], status, limits[..n], pages[..n], id);
      var s :| s in ledgers[..n] && Listed(s, id, None, status);
      assert s in ledgers;
    }
  }

  /** On a ledger that stands still, the pages show exactly the listed deliveries, each once,
      whatever the page sizes. */
  lemma WalkIsExact(
    s: Tables, ledgers: seq<Tables>, status: Option<DeliveryStatus>, limits: seq<nat>, pages: seq<Page>)
    requires pages != [] && pages[|pages| - 1].nextCursor.None?
    requires Walk(ledgers, status, limits, pages)
    requires forall t | t in ledgers :: t == s
    ensures Descending(Walked(pages))
    ensures forall id :: id in Walked(pages) <==> Listed(s, id, None, status)
  {
    hide Walk, Listed, Descending;
    WalkNeverRepeats(ledgers, status, limits, pages);
    forall id ensures id in Walked(pages) <==> Listed(s, id, None, status) {
      if Listed(s, id, None, status) {
        WalkNeverMisses(ledgers, status, limits, pages, id);
      }
      if id in Walked(pages) {
        WalkShowsListed(ledgers, status, limits, pages, id);
      }
    }
  }

  /** What is still to be shown after the cursor. */
  ghost function Ahead(s: Tables, cursor: Option<DeliveryId>, status: Option<DeliveryStatus>): set<DeliveryId> {
    set id | id in s.deliveries && Listed(s, id, cursor, status)
  }

  lemma SubsetCounts(part: set<DeliveryId>, whole: set<DeliveryId>)
    requires part <= whole
    ensures |part| <= |whole|
  {
    assert whole == part + (whole - part);
  }

  lemma {:induction false} DescendingCounts(ids: seq<DeliveryId>)
    requires Descending(ids)
    ensures |set id | id in ids| == |ids|
  {
    if ids != [] {
      var n := |ids| - 1;
      DescendingCounts(ids[..n]);
      assert ids == ids[..n] + [ids[n]];
      assert (set id | id in ids) == (set id | id in ids[..n]) + {ids[n]};
    } else {
      assert (set id | id in ids) == {};
    }
  }

  lemma ListedIsKnown(s: Tables, id: DeliveryId, cursor: Option<DeliveryId>, status: Option<DeliveryStatus>)
    requires Listed(s, id, cursor, status)
    ensures id in s.deliveries
  {
  }

  lemma ListedFurther(
    s: Tables, id: DeliveryId, last: DeliveryId, cursor: Option<DeliveryId>, status: Option<DeliveryStatus>)
    requires Listed(s, last, cursor, status) && Listed(s, id, Some(last), status)
    ensures Listed(s, id, cursor, status) && id < last && id in s.deliveries
  {
  }

  lemma PageShrinksAhead(
    s: Tables, cursor: Option<DeliveryId>, status: Option<DeliveryStatus>, limit: nat, page: Page)
    requires Lists(s, cursor, status, limit, page) && page.nextCursor.Some?
    ensures |Ahead(s, page.nextCursor, status)| + limit <= |Ahead(s, cursor, status)|
  {
    hide Lists, Listed, Descending;
    PageIsTop(s, cursor, status, limit, page);
    var before, after := Ahead(s, cursor, status), Ahead(s, page.nextCursor, status);
    var shown := set id | id in page.records;
    DescendingCounts(page.records);
    var last := page.nextCursor.value;
    LastIsLeast(page.records);
    assert Listed(s, last, cursor, status);
    forall id | id in after ensures id in before && id !in shown {
      ListedFurther(s, id, last, cursor, status);
    }
    forall id | id in shown ensures id in before {
      ListedIsKnown(s, id, cursor, status);
    }
    assert shown + after <= before;
    SubsetCounts(shown + after, before);
  }

  lemma WalkExtends(
    ledgers: seq<Tables>, status: Option<DeliveryStatus>, limits: seq<nat>, pages: seq<Page>,
    s: Tables, limit: nat, page: Page)
    requires Walk(ledgers, status, limits, pages)
    requires pages != [] ==> pages[|pages| - 1].nextCursor.Some?
    requires Lists(s, CursorOf(pages, |pages|), status, limit, page)
    ensures Walk(ledgers + [s], status, limits + [limit], pages + [page])
    ensures CursorOf(pages + [page], |pages| + 1) == page.nextCursor
  {
    hide Lists;
    var n := |pages|;
    assert (ledgers + [s])[..n] == ledgers && (limits + [limit])[..n] == limits;
    assert (pages + [page])[..n] == pages;
    assert CursorOf(pages + [page], n) == CursorOf(pages, n);
  }

  /** The ledger stands still, and `limit` says what page size is asked for when. */
  ghost predicate Still(s: Tables, limit: nat -> nat, ledgers: seq<Tables>, limits: seq<nat>) {
    |ledgers| == |limits| && forall k | 0 <= k < |limits| :: ledgers[k] == s && limits[k] == limit(k)
  }

  ghost predicate Allowed(limit: nat -> nat) {
    forall k: nat :: 1 <= limit(k) <= 200
  }

  lemma AllowedAt(limit: nat -> nat, k: nat)
    requires Allowed(limit)
    ensures 1 <= limit(k) <= 200
  {
  }

  lemma WalkSizes(
    ledgers: seq<Tables>, status: Option<DeliveryStatus>, limits: seq<nat>, pages: seq<Page>)
    requires Walk(ledgers, status, limits, pages)
    ensures |ledgers| == |limits| == |pages|
  {
  }

  lemma StillExtends(s: Tables, limit: nat -> nat, ledgers: seq<Tables>, limits: seq<nat>)
    requires Still(s, limit, ledgers, limits)
    ensures Still(s, limit, ledgers + [s], limits + [limit(|limits|)])
  {
  }

  /** A walk under way on a ledger that stands still can be followed to its end. Every page but
      the last is full, so the walk ends. */
  lemma {:induction false} WalkCanEnd(
    s: Tables, status: Option<DeliveryStatus>, limit: nat -> nat,
    ledgers: seq<Tables>, limits: seq<nat>, pages: seq<Page>)
    returns (ledgers': seq<Tables>, limits': seq<nat>, pages': seq<Page>)
    requires Allowed(limit)
    requires Walk(ledgers, status, limits, pages) && Still(s, limit, ledgers, limits)
    requires pages != [] ==> pages[|pages| - 1].nextCursor.Some?
    ensures Walk(ledgers', status, limits', pages') && Still(s, limit, ledgers', limits')
    ensures pages' != [] && pages'[|pages'| - 1].nextCursor.None?
    decreases |Ahead(s, CursorOf(pages, |pages|), status)|
  {
    hide Lists, Walk, Still, Ahead, CursorOf, Allowed;
    var n := |pages|;
    WalkSizes(ledgers, status, limits, pages);
    AllowedAt(limit, n);
    var size, cursor := limit(n), CursorOf(pages, n);
    PageExists(s, cursor, status, size);
    var page :| Lists(s, cursor, status, size, page);
    WalkExtends(ledgers, status, limits, pages, s, size, page);
    StillExtends(s, limit, ledgers, limits);
    ledgers', limits', pages' := ledgers + [s], limits + [size], pages + [page];
    if page.nextCursor.None? {
    } else {
      PageShrinksAhead(s, cursor, status, size, page);
      ledgers', limits', pages' := WalkCanEnd(s, status, limit, ledgers', limits', pages');
    }
  }

  /** On a ledger that stands still there is a finished walk for any page sizes, and it shows
      exactly the listed deliveries. */
  lemma WalkEnds(s: Tables, status: Option<DeliveryStatus>, limit: nat -> nat)
    returns (ledgers: seq<Tables>, limits: seq<nat>, pages: seq<Page>)
    requires Allowed(limit)
    ensures Walk(ledgers, status, limits, pages) && Still(s, limit, ledgers, limits)
    ensures pages != [] && pages[|pages| - 1].nextCursor.None?
    ensures forall id :: id in Walked(pages) <==> Listed(s, id, None, status)
  {
    hide Listed, Lists;
    ledgers, limits, pages := WalkCanEnd(s, status, limit, [], [], []);
    WalkIsExact(s, ledgers, status, limits, pages);
  }

  /** Every delivery of a run's ledger is listed without a filter, and under its status. */
  lemma KnownIsListed(hash: IntentId -> DeliveryId, y: World, id: DeliveryId, status: Option<DeliveryStatus>)
    requires WorldInv(hash, y)
    ensures Listed(y.ledger, id, None, status) <==>
              && id in y.ledger.deliveries
              && (status.None? || y.ledger.deliveries[id].status == status.value)
  {
    hide DeliveryInv, EventInv, LogInv, WorkerInv, Separate;
    var s := y.ledger;
    if id in s.deliveries {
      assert DeliveryIdentity(hash, s, id) && IntentRow(hash, s, s.deliveries[id].intent);
    }
  }

  /** A walk that is followed to its end while the system rests shows every delivery with the
      status that was asked for, or every delivery if none was, and no other, each once and from
      the highest identity down. */
  lemma FilteredWalkIsExact(
    hash: IntentId -> DeliveryId, trace: seq<World>, t: nat, ledgers: seq<Tables>,
    status: Option<DeliveryStatus>, limits: seq<nat>, pages: seq<Page>)
    requires Run(hash, trace) && t < |trace| && Walk(ledgers, status, limits, pages)
    requires forall s | s in ledgers :: s == trace[t].ledger
    requires pages != [] && pages[|pages| - 1].nextCursor.None?
    ensures var shown, deliveries := Walked(pages), trace[t].ledger.deliveries;
            && (forall m, n | 0 <= m < n < |shown| :: shown[n] < shown[m])
            && forall id :: id in shown <==>
                 id in deliveries && (status.None? || deliveries[id].status == status.value)
  {
    hide Run, WorldInv, Listed, Walk, Walked;
    RunKeepsWorldInv(hash, trace, t);
    WalkIsExact(trace[t].ledger, ledgers, status, limits, pages);
    forall id
      ensures Listed(trace[t].ledger, id, None, status) <==>
                && id in trace[t].ledger.deliveries
                && (status.None? || trace[t].ledger.deliveries[id].status == status.value)
    {
      KnownIsListed(hash, trace[t], id, status);
    }
  }

  lemma StaysListed(s: Tables, s': Tables, id: DeliveryId)
    requires AppendOnly(s, s') && Listed(s, id, None, None)
    ensures Listed(s', id, None, None)
  {
    hide SameAttempt;
    assert s.deliveries[id].intent in s.intents;
  }

  /** While the system runs, an unfiltered walk that is followed to its end shows every delivery
      that existed when it began, none of them twice. `times` says when each page was read. */
  lemma WalkOfRunIsComplete(
    hash: IntentId -> DeliveryId, trace: seq<World>, times: seq<nat>, ledgers: seq<Tables>,
    limits: seq<nat>, pages: seq<Page>, id: DeliveryId)
    requires Run(hash, trace) && |times| == |ledgers|
    requires forall k | 0 <= k < |times| :: times[k] < |trace|
    requires forall k, m | 0 <= k <= m < |times| :: times[k] <= times[m]
    requires pages != [] && pages[|pages| - 1].nextCursor.None?
    requires Walk(ledgers, None, limits, pages)
    requires forall k | 0 <= k < |times| :: ledgers[k] == trace[times[k]].ledger
    requires id in ledgers[0].deliveries
    ensures id in Walked(pages) && Descending(Walked(pages))
  {
    hide Run, WorldInv, Listed, AppendOnly, Walk, Descending;
    WalkSizes(ledgers, None, limits, pages);
    RunKeepsWorldInv(hash, trace, times[0]);
    KnownIsListed(hash, trace[times[0]], id, None);
    forall s | s in ledgers ensures Listed(s, id, None, None) {
      var k :| 0 <= k < |ledgers| && s == ledgers[k];
      RunIsAppendOnly(hash, trace, times[0], times[k]);
      StaysListed(ledgers[0], s, id);
    }
    WalkNeverMisses(ledgers, None, limits, pages, id);
    WalkNeverRepeats(ledgers, None, limits, pages);
  }
}
