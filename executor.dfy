/**
 * The query executors of functions.ts:116-286. The datastore is a finite
 * sequence of replies: the k-th query call receives `pages[k]`. Pages are
 * chained by their `next_cursor`; the calls each executor makes are
 * returned so that their arguments can be stated.
 */
module Executor {
  import opened Types

  /** The page size of every auto-paginated request and of every findFirstBy request. */
  const PageSize: int := 1000

  /** The limit findAllBy uses when none is given. */
  const DefaultLimit: int := 1000

  /** The arguments of one query call; `filter` is None when the expression fields are left out. */
  datatype Request = Request(datastore: string, filter: Option<RawExpression>, cursor: Option<string>, limit: int)

  /** The arguments of one count call. */
  datatype CountRequest = CountRequest(datastore: string, filter: Option<RawExpression>)

  /** The reply carries an error message that is present and not empty. */
  predicate Failed(r: Response) {
    r.error.Some? && r.error.value != ""
  }

  /** A cursor that is present and not empty: there is a further page. */
  predicate HasMore(cursor: Option<string>) {
    cursor.Some? && cursor.value != ""
  }

  /** Auto-pagination is on unless it is given as false. */
  predicate AutoPaginates(autoPagination: Option<bool>) {
    autoPagination.None? || autoPagination.value
  }

  /**
   * The expression fields of a first query or of a count: sent only when the
   * expression text is not empty.
   */
  function Filter(expression: RawExpression): (f: Option<RawExpression>)
    ensures f.None? <==> expression.expression == ""
    ensures f.Some? ==> f.value == expression
  {
    if expression.expression != "" then Some(expression) else None
  }

  /** The last reply ends the cursor chain, so following cursors stays within `pages`. */
  predicate Exhausts(pages: seq<Page>) {
    |pages| > 0 && !HasMore(pages[|pages| - 1].nextCursor)
  }

  /** The index of the first page without a further cursor: the last page a cursor walk reads. */
  function ChainEnd(pages: seq<Page>): (e: nat)
    requires Exhausts(pages)
    ensures e < |pages|
    ensures !HasMore(pages[e].nextCursor)
    ensures forall k :: 0 <= k < e ==> HasMore(pages[k].nextCursor)
    decreases |pages|
  {
    if !HasMore(pages[0].nextCursor) then 0 else 1 + ChainEnd(pages[1..])
  }

  /** The items of the pages, in cursor order. */
  function AllItems(pages: seq<Page>): seq<Record> {
    if pages == [] then [] else AllItems(pages[..|pages| - 1]) + pages[|pages| - 1].items
  }

  /** The first `n` elements, or all of them when there are fewer. */
  function Take<T>(s: seq<T>, n: nat): (r: seq<T>)
    ensures |r| == if |s| <= n then |s| else n
    ensures r == s[..|r|]
  {
    if |s| <= n then s else s[..n]
  }

  /** A JavaScript slice from 0 to `end`: a negative end counts from the back of the array. */
  function SliceTo<T>(s: seq<T>, end: int): seq<T> {
    if end >= 0 then Take(s, end)
    else s[..if |s| + end > 0 then |s| + end else 0]
  }

  /** A slice from 0 is a prefix: `end` items when it is not negative, else all but the last -`end`, never fewer than none. */
  lemma SliceToPrefix<T>(s: seq<T>, end: int)
    ensures SliceTo(s, end) == s[..|SliceTo(s, end)|]
    ensures end >= 0 ==> |SliceTo(s, end)| == if |s| <= end then |s| else end
    ensures end < 0 ==> |SliceTo(s, end)| == if |s| + end > 0 then |s| + end else 0
  {
  }

  /**
   * What findAllBy does with the replies `pages`: the first request carries
   * the expression only when its text is not empty and asks for 1000 items
   * when auto-paginating (otherwise `limit`); an error on the first reply
   * raises DatastoreError; without auto-pagination the first page is cut to
   * `limit`; with it, every cursor is followed to the end of the chain,
   * continuation requests always carry the expression, and the result holds
   * the first `limit` items of all pages in order (a negative limit cuts the
   * first page from the back and nothing is appended). The response keeps
   * the first reply's other fields.
   */
  ghost predicate QueriedAll(
    datastore: string, expression: RawExpression, cursor: Option<string>, limit: Option<int>,
    autoPagination: Option<bool>, pages: seq<Page>, result: Result<Response, Error>, calls: seq<Request>)
    requires |pages| > 0
    requires AutoPaginates(autoPagination) ==> Exhausts(pages)
  {
    var L := limit.GetOr(DefaultLimit);
    && |calls| >= 1
    && calls[0] == Request(datastore, Filter(expression), cursor, if AutoPaginates(autoPagination) then PageSize else L)
    && (Failed(pages[0]) ==> result == Failure(DatastoreError(pages[0])) && |calls| == 1)
    && (!Failed(pages[0]) && !AutoPaginates(autoPagination) ==>
          |calls| == 1 && result == Success(pages[0].(items := SliceTo(pages[0].items, L))))
    && (!Failed(pages[0]) && AutoPaginates(autoPagination) ==>
          && |calls| == ChainEnd(pages) + 1
          && (forall k :: 1 <= k < |calls| ==>
                calls[k] == Request(datastore, Some(expression), pages[k - 1].nextCursor, PageSize))
          && result == Success(pages[0].(items :=
               if L >= 0 then Take(AllItems(pages[..ChainEnd(pages) + 1]), L) else SliceTo(pages[0].items, L))))
  }

  /** findAllBy (functions.ts:170-242). */
  method FindAllBy(
    datastore: string, expression: RawExpression, cursor: Option<string>, limit: Option<int>,
    autoPagination: Option<bool>, pages: seq<Page>)
    returns (result: Result<Response, Error>, calls: seq<Request>)
    requires |pages| > 0
    requires AutoPaginates(autoPagination) ==> Exhausts(pages)
    ensures QueriedAll(datastore, expression, cursor, limit, autoPagination, pages, result, calls)
  {
    var paginate := AutoPaginates(autoPagination);
    var L := limit.GetOr(DefaultLimit);
    var first := Request(datastore, Filter(expression), cursor, if paginate then PageSize else L);
    calls := [first];
    var results := pages[0];
    if Failed(results) {
      result := Failure(DatastoreError(results));
      return;
    }
    var items := results.items;
    if |items| > L {
      items := SliceTo(items, L);
    }
    assert items == SliceTo(results.items, L);
    if paginate {
      assert pages[..1] == [pages[0]];
      assert AllItems(pages[..1]) == results.items by {
        assert pages[..1][..0] == [];
      }
      var nextCursor := results.nextCursor;
      var i := 0;
      while HasMore(nextCursor)
        invariant 0 <= i <= ChainEnd(pages)
        invariant nextCursor == pages[i].nextCursor
        invariant |calls| == i + 1 && calls[0] == first
        invariant forall k :: 1 <= k <= i ==>
          calls[k] == Request(datastore, Some(expression), pages[k - 1].nextCursor, PageSize)
        invariant L >= 0 ==> items == Take(AllItems(pages[..i + 1]), L)
        invariant L < 0 ==> items == SliceTo(results.items, L)
        decreases ChainEnd(pages) - i
      {
        calls := calls + [Request(datastore, Some(expression), nextCursor, PageSize)];
        i := i + 1;
        var pageResults := pages[i];
        AllItemsStep(pages, i);
        items := Fill(items, pageResults.items, L, AllItems(pages[..i]));
        nextCursor := pageResults.nextCursor;
      }
    }
    result := Success(results.(items := items));
  }

  /**
   * The loop over one continuation page: its items are appended until the
   * result holds `limit` items; the break leaves only this loop. With a
   * negative limit nothing is appended.
   */
  method Fill(items: seq<Record>, page: seq<Record>, limit: int, ghost before: seq<Record>) returns (filled: seq<Record>)
    requires limit >= 0 ==> items == Take(before, limit)
    ensures limit >= 0 ==> filled == Take(before + page, limit)
    ensures limit < 0 ==> filled == items
  {
    filled := items;
    var j := 0;
    while j < |page| && |filled| < limit
      invariant 0 <= j <= |page|
      invariant limit >= 0 ==> filled == Take(before + page[..j], limit)
      invariant limit < 0 ==> filled == items
    {
      TakeStep(before + page[..j], page[j], limit);
      assert (before + page[..j]) + [page[j]] == before + page[..j + 1];
      filled := filled + [page[j]];
      j := j + 1;
    }
    if limit >= 0 {
      if j == |page| {
        assert page[..j] == page;
      } else {
        TakeFull(before + page[..j], page[j..], limit);
        assert before + page[..j] + page[j..] == before + page;
      }
    }
  }

  /** Below the limit, taking one more element appends it. */
  lemma TakeStep<T>(s: seq<T>, x: T, n: nat)
    requires |Take(s, n)| < n
    ensures Take(s + [x], n) == Take(s, n) + [x]
  {
  }

  /** One more page of the chain adds its items at the end. */
  lemma AllItemsStep(pages: seq<Page>, i: nat)
    requires i < |pages|
    ensures AllItems(pages[..i + 1]) == AllItems(pages[..i]) + pages[i].items
  {
    assert pages[..i + 1][..i] == pages[..i];
  }

  /** Once `n` elements are taken, appending more changes nothing. */
  lemma TakeFull<T>(s: seq<T>, t: seq<T>, n: nat)
    requires |Take(s, n)| == n
    ensures Take(s + t, n) == Take(s, n)
  {
    assert (s + t)[..n] == s[..n];
  }

  /** The items of a prefix of the pages come first among the items of all of them. */
  lemma {:induction false} AllItemsAppend(a: seq<Page>, b: seq<Page>)
    ensures AllItems(a + b) == AllItems(a) + AllItems(b)
    decreases |b|
  {
    if b == [] {
      assert a + b == a;
    } else {
      var front := b[..|b| - 1];
      assert (a + b)[..|a + b| - 1] == a + front;
      assert (a + b)[|a + b| - 1] == b[|b| - 1];
      AllItemsAppend(a, front);
    }
  }

  /**
   * With a limit that is not negative, findAllBy returns at most `limit` items
   * and they are the first ones of all pages, in cursor order; the
   * remaining pages are still requested.
   */
  lemma FindAllWithinLimit(
    datastore: string, expression: RawExpression, cursor: Option<string>, limit: Option<int>,
    pages: seq<Page>, result: Result<Response, Error>, calls: seq<Request>)
    requires Exhausts(pages)
    requires QueriedAll(datastore, expression, cursor, limit, None, pages, result, calls)
    requires result.Success? && limit.GetOr(DefaultLimit) >= 0
    ensures |result.value.items| <= limit.GetOr(DefaultLimit)
    ensures |result.value.items| == limit.GetOr(DefaultLimit) || result.value.items == AllItems(pages[..ChainEnd(pages) + 1])
    ensures result.value.items <= AllItems(pages)
    ensures |calls| == ChainEnd(pages) + 1
  {
    var e, L := ChainEnd(pages), limit.GetOr(DefaultLimit);
    PaginatedResult(datastore, expression, cursor, limit, pages, result, calls);
    var chain := AllItems(pages[..e + 1]);
    ChainIsPrefix(pages);
    assert Take(chain, L) <= chain;
  }

  /** What a successful auto-paginated findAllBy returns and how many calls it makes. */
  lemma PaginatedResult(
    datastore: string, expression: RawExpression, cursor: Option<string>, limit: Option<int>,
    pages: seq<Page>, result: Result<Response, Error>, calls: seq<Request>)
    requires Exhausts(pages)
    requires QueriedAll(datastore, expression, cursor, limit, None, pages, result, calls)
    requires result.Success? && limit.GetOr(DefaultLimit) >= 0
    ensures result.value.items == Take(AllItems(pages[..ChainEnd(pages) + 1]), limit.GetOr(DefaultLimit))
    ensures |calls| == ChainEnd(pages) + 1
  {
    assert AutoPaginates(None) && !Failed(pages[0]);
  }

  /** The items of the cursor chain come first among the items of all pages. */
  lemma ChainIsPrefix(pages: seq<Page>)
    requires Exhausts(pages)
    ensures AllItems(pages[..ChainEnd(pages) + 1]) <= AllItems(pages)
  {
    var e := ChainEnd(pages);
    AllItemsAppend(pages[..e + 1], pages[e + 1..]);
    assert pages[..e + 1] + pages[e + 1..] == pages;
  }

  /** The first page of the chain with an item, or the end of the chain when every page is empty. */
  function FirstHit(pages: seq<Page>): (k: nat)
    requires Exhausts(pages)
    ensures k <= ChainEnd(pages)
    ensures forall j :: 0 <= j < k ==> pages[j].items == []
    ensures pages[k].items != [] || k == ChainEnd(pages)
    decreases |pages|
  {
    if pages[0].items != [] || !HasMore(pages[0].nextCursor) then 0 else 1 + FirstHit(pages[1..])
  }

  /** findFirstBy (functions.ts:116-168). */
  method FindFirstBy(datastore: string, expression: RawExpression, pages: seq<Page>)
    returns (result: Result<Response, Error>, calls: seq<Request>)
    requires Exhausts(pages)
    ensures |calls| >= 1
    // the first request always carries the expression, without a cursor
    ensures calls[0] == Request(datastore, Some(expression), None, PageSize)
    ensures Failed(pages[0]) ==> result == Failure(DatastoreError(pages[0])) && |calls| == 1
    ensures !Failed(pages[0]) ==>
      // no page after the first one with an item is requested
      && |calls| == FirstHit(pages) + 1
      && (forall k :: 1 <= k < |calls| ==>
            calls[k] == Request(datastore, Some(expression), pages[k - 1].nextCursor, PageSize))
      && result == Success(pages[0].(items := Take(pages[FirstHit(pages)].items, 1)))
  {
    calls := [Request(datastore, Some(expression), None, PageSize)];
    var results := pages[0];
    if Failed(results) {
      result := Failure(DatastoreError(results));
      return;
    }
    if |results.items| > 0 {
      result := Success(results.(items := results.items[..1]));
      return;
    }
    var nextCursor := results.nextCursor;
    var i := 0;
    while HasMore(nextCursor)
      invariant 0 <= i <= ChainEnd(pages)
      invariant nextCursor == pages[i].nextCursor
      invariant forall j :: 0 <= j <= i ==> pages[j].items == []
      invariant |calls| == i + 1 && calls[0] == Request(datastore, Some(expression), None, PageSize)
      invariant forall k :: 1 <= k <= i ==>
        calls[k] == Request(datastore, Some(expression), pages[k - 1].nextCursor, PageSize)
      decreases ChainEnd(pages) - i
    {
      calls := calls + [Request(datastore, Some(expression), nextCursor, PageSize)];
      i := i + 1;
      var pageResults := pages[i];
      if |pageResults.items| > 0 {
        result := Success(results.(items := pageResults.items[..1]));
        return;
      }
      nextCursor := pageResults.nextCursor;
    }
    result := Success(results);
  }

  /** The item findFirstBy returns is the first item findAllBy would collect. */
  lemma FirstHitIsFirstItem(pages: seq<Page>)
    requires Exhausts(pages)
    ensures Take(pages[FirstHit(pages)].items, 1) == Take(AllItems(pages[..ChainEnd(pages) + 1]), 1)
  {
    var h, e := FirstHit(pages), ChainEnd(pages);
    SkipEmpty(pages, h, e);
    if pages[h].items == [] {
      assert h == e && pages[h + 1..e + 1] == [];
      assert AllItems(pages[..e + 1]) == [];
    } else {
      TakeFull(pages[h].items, AllItems(pages[h + 1..e + 1]), 1);
    }
  }

  /** Empty pages before index h contribute nothing: the items start with page h's. */
  lemma SkipEmpty(pages: seq<Page>, h: nat, e: nat)
    requires h <= e < |pages|
    requires forall j :: 0 <= j < h ==> pages[j].items == []
    ensures AllItems(pages[..e + 1]) == pages[h].items + AllItems(pages[h + 1..e + 1])
  {
    AllItemsAppend(pages[..h], pages[h..e + 1]);
    assert pages[..h] + pages[h..e + 1] == pages[..e + 1];
    AllItemsEmpty(pages[..h]);
    AllItemsAppend([pages[h]], pages[h + 1..e + 1]);
    assert [pages[h]] + pages[h + 1..e + 1] == pages[h..e + 1];
    assert AllItems([pages[h]]) == pages[h].items by {
      assert [pages[h]][..0] == [];
    }
  }

  lemma {:induction false} AllItemsEmpty(pages: seq<Page>)
    requires forall j :: 0 <= j < |pages| ==> pages[j].items == []
    ensures AllItems(pages) == []
  {
    if pages != [] {
      AllItemsEmpty(pages[..|pages| - 1]);
    }
  }

  /** countBy (functions.ts:244-286): the count request, and what the call returns for `reply`. */
  function CountBy(datastore: string, expression: RawExpression, reply: Response): (r: (CountRequest, Result<Response, Error>))
    ensures r.0.datastore == datastore
    ensures r.0.filter.None? <==> expression.expression == ""
    ensures r.0.filter.Some? ==> r.0.filter.value == expression
    ensures r.1.Failure? <==> Failed(reply)
    ensures r.1.Failure? ==> r.1.error == DatastoreError(reply)
    ensures r.1.Success? ==> r.1.value == reply
  {
    var request := CountRequest(datastore, Filter(expression));
    if Failed(reply) then (request, Failure(DatastoreError(reply))) else (request, Success(reply))
  }
}
