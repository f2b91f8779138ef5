/** `gifs` (src/main.rs:69-95): follow the feed's `next` cursor from the
    member's seed URL, appending every page's `results`, until a page has no
    `next`; any failed request aborts the whole walk. */
module Pagination {
  import opened Wrappers
  import opened Giphy
  import Text


  /** HTTP status codes as `reqwest` reports them. */
  type StatusCode = c: int | 100 <= c <= 999 witness 200

  /** A decoded `GiphyResponse`. */
  datatype Page = Page(next: Option<Url>, results: seq<Gif>)

  /** The body of a feed response: a page, text that does not decode as a
      page, or a body whose read failed. */
  datatype Body = Json(page: Page) | Malformed | Unreadable

  datatype Response = Response(status: StatusCode, body: Body)

  /** The remote feed as the program sees it. A URL outside the map is one
      whose request fails before a status arrives (connection, timeout). */
  type Feed = map<Url, Response>

  /** `StatusCode::is_success`: the 2xx range. */
  predicate IsSuccess(status: StatusCode) {
    200 <= status <= 299
  }

  /** The first URL of the walk, `https://giphy.com/api/v4/channels/{member}/feed`. */
  function SeedUrl(member: U64): (r: Url)
    ensures var prefix := "https://giphy.com/api/v4/channels/";
      && |r| == |prefix| + |Text.Decimal(member)| + 5
      && r[..|prefix|] == prefix && r[|r| - 5..] == "/feed"
      && Text.AllDigits(r[|prefix|..|r| - 5]) && Text.ParseDecimal(r[|prefix|..|r| - 5]) == member
  {
    Text.ParseDecimalOfDecimal(member);
    "https://giphy.com/api/v4/channels/" + Text.Decimal(member) + "/feed"
  }

  /** One iteration's request: GET, status check, body read, decode, in
      that order, each with the error the program reports. */
  function FetchPage(feed: Feed, url: Url): (r: Result<Page, Error>)
    ensures url !in feed ==> r == Failure(Transport)
    ensures url in feed && !IsSuccess(feed[url].status) ==> r == Failure(ResponseError(feed[url].status))
    ensures r.Success? <==> url in feed && IsSuccess(feed[url].status) && feed[url].body.Json?
    ensures r.Success? ==> r.value == feed[url].body.page
    ensures url in feed && IsSuccess(feed[url].status) && feed[url].body.Unreadable? ==> r == Failure(Transport)
    ensures url in feed && IsSuccess(feed[url].status) && feed[url].body.Malformed? ==> r == Failure(Decode)
  {
    if url !in feed then Failure(Transport)
    else
      var response := feed[url];
      if !IsSuccess(response.status) then Failure(ResponseError(response.status))
      else
        match response.body
        case Unreadable => Failure(Transport)
        case Malformed => Failure(Decode)
        case Json(page) => Success(page)
  }

  /** What a walk from some URL produces: its result and the URLs it
      requested, in order. `OutOfFuel` says only that the cursor chain is
      longer than the `fuel` the specification was given. */
  datatype Walk = Finished(result: Result<seq<Gif>, Error>, requests: seq<Url>) | OutOfFuel

  /** The specification of `gifs`: walk the cursor chain from `url`, making
      at most `fuel` requests. */
  function Crawl(feed: Feed, url: Url, fuel: nat): (w: Walk)
    ensures w.Finished? ==> 1 <= |w.requests| <= fuel && w.requests[0] == url
    decreases fuel
  {
    if fuel == 0 then OutOfFuel
    else
      match FetchPage(feed, url)
      case Failure(e) => Finished(Failure(e), [url])
      case Success(page) =>
        if page.next.None? then Finished(Success(page.results), [url])
        else Prepend(page.results, [url], Crawl(feed, page.next.value, fuel - 1))
  }

  /** The walk `w`, continued from a point where `items` were already
      gathered after requesting `requests`. A failure discards `items`. */
  function Prepend(items: seq<Gif>, requests: seq<Url>, w: Walk): Walk {
    match w
    case OutOfFuel => OutOfFuel
    case Finished(Failure(e), rest) => Finished(Failure(e), requests + rest)
    case Finished(Success(more), rest) => Finished(Success(items + more), requests + rest)
  }

  lemma PrependNothing(w: Walk)
    ensures Prepend([], [], w) == w
  {
    match w
    case OutOfFuel =>
    case Finished(Failure(e), rest) =>
      assert [] + rest == rest;
    case Finished(Success(more), rest) =>
      assert [] + rest == rest;
      assert [] + more == more;
  }

  lemma PrependPrepend(items: seq<Gif>, requests: seq<Url>, items': seq<Gif>, requests': seq<Url>, w: Walk)
    ensures Prepend(items, requests, Prepend(items', requests', w)) == Prepend(items + items', requests + requests', w)
  {
    match w
    case OutOfFuel =>
    case Finished(Failure(e), rest) =>
      assert requests + (requests' + rest) == (requests + requests') + rest;
    case Finished(Success(more), rest) =>
      assert requests + (requests' + rest) == (requests + requests') + rest;
      assert items + (items' + more) == (items + items') + more;
  }

  /** Once the chain ends within `fuel` requests, more fuel changes nothing:
      the walk does not depend on the bound used to describe it. */
  lemma {:induction false} CrawlFuelIrrelevant(feed: Feed, url: Url, fuel: nat, more: nat)
    requires Crawl(feed, url, fuel).Finished? && fuel <= more
    ensures Crawl(feed, url, more) == Crawl(feed, url, fuel)
    decreases fuel
  {
    var r := FetchPage(feed, url);
    if r.Success? && r.value.next.Some? {
      CrawlFuelIrrelevant(feed, r.value.next.value, fuel - 1, more - 1);
    }
  }

  /** The items of `pages`, page after page. */
  function Flatten(pages: seq<Page>): (items: seq<Gif>)
    ensures pages == [] ==> items == []
  {
    if pages == [] then [] else pages[0].results + Flatten(pages[1..])
  }

  /** `urls[i]` answers with `pages[i]` and each page's cursor names the
      next URL of the list, for every page of `pages`. */
  predicate Linked(feed: Feed, urls: seq<Url>, pages: seq<Page>)
    requires |pages| <= |urls|
  {
    forall i :: 0 <= i < |pages| ==>
      FetchPage(feed, urls[i]) == Success(pages[i]) &&
      (i + 1 < |urls| ==> pages[i].next == Some(urls[i + 1]))
  }

  /** The whole cursor chain from `urls[0]`: linked pages, the last one
      without a `next`. */
  predicate IsChain(feed: Feed, urls: seq<Url>, pages: seq<Page>) {
    1 <= |urls| == |pages| && Linked(feed, urls, pages) && pages[|pages| - 1].next.None?
  }

  lemma LinkedTail(feed: Feed, urls: seq<Url>, pages: seq<Page>)
    requires 1 <= |pages| <= |urls| && Linked(feed, urls, pages)
    ensures Linked(feed, urls[1..], pages[1..])
  {
    forall i | 0 <= i < |pages| - 1
      ensures FetchPage(feed, urls[1..][i]) == Success(pages[1..][i])
      ensures i + 1 < |urls| - 1 ==> pages[1..][i].next == Some(urls[1..][i + 1])
    {
      assert FetchPage(feed, urls[i + 1]) == Success(pages[i + 1]);
    }
  }

  /** Over a cursor chain of n pages, `gifs` makes exactly the n requests of
      the chain, in order, and returns the pages' items concatenated in page
      order. */
  lemma {:induction false} CrawlFollowsChain(feed: Feed, urls: seq<Url>, pages: seq<Page>, fuel: nat)
    requires IsChain(feed, urls, pages) && |urls| <= fuel
    ensures Crawl(feed, urls[0], fuel) == Finished(Success(Flatten(pages)), urls)
    decreases |urls|
  {
    assert FetchPage(feed, urls[0]) == Success(pages[0]);
    if |urls| == 1 {
      assert pages[0].next.None?;
      assert pages[1..] == [];
      assert Flatten(pages) == pages[0].results + [] == pages[0].results;
      assert urls == [urls[0]];
    } else {
      LinkedTail(feed, urls, pages);
      CrawlFollowsChain(feed, urls[1..], pages[1..], fuel - 1);
      assert [urls[0]] + urls[1..] == urls;
    }
  }

  /** If the chain breaks at `urls[|pages|]` after the linked `pages`, the
      walk fails with that request's error: every URL up to the failing one
      is requested, none after it, and no item is returned. */
  lemma {:induction false} CrawlStopsAtFailure(feed: Feed, urls: seq<Url>, pages: seq<Page>, e: Error, fuel: nat)
    requires |urls| == |pages| + 1 && Linked(feed, urls, pages)
    requires FetchPage(feed, urls[|pages|]) == Failure(e)
    requires |urls| <= fuel
    ensures Crawl(feed, urls[0], fuel) == Finished(Failure(e), urls)
    decreases |urls|
  {
    if pages != [] {
      assert FetchPage(feed, urls[0]) == Success(pages[0]);
      LinkedTail(feed, urls, pages);
      CrawlStopsAtFailure(feed, urls[1..], pages[1..], e, fuel - 1);
      assert [urls[0]] + urls[1..] == urls;
    }
  }

  /** A non-success status anywhere on the chain makes `gifs` fail with
      `ResponseError` carrying exactly that status. */
  lemma CrawlReportsStatus(feed: Feed, urls: seq<Url>, pages: seq<Page>, fuel: nat)
    requires |urls| == |pages| + 1 && Linked(feed, urls, pages)
    requires urls[|pages|] in feed && !IsSuccess(feed[urls[|pages|]].status)
    requires |urls| <= fuel
    ensures Crawl(feed, urls[0], fuel) == Finished(Failure(ResponseError(feed[urls[|pages|]].status)), urls)
  {
    CrawlStopsAtFailure(feed, urls, pages, ResponseError(feed[urls[|pages|]].status), fuel);
  }

  /** `gifs(member_id)`. The loop has no bound of its own, as in the
      program; `bound` is a ghost witness that the member's cursor chain ends
      (no cycle, no endless feed) within that many requests. The result and
      the requests made are those of the specification `Crawl`. */
  method Gifs(feed: Feed, member: U64, ghost bound: nat) returns (r: Result<seq<Gif>, Error>, requests: seq<Url>)
    requires Crawl(feed, SeedUrl(member), bound).Finished?
    ensures Finished(r, requests) == Crawl(feed, SeedUrl(member), bound)
  {
    var gifs: seq<Gif> := [];
    var url := SeedUrl(member);
    requests := [];
    ghost var fuel := bound;
    PrependNothing(Crawl(feed, url, fuel));
    while true
      invariant Crawl(feed, url, fuel).Finished?
      invariant Crawl(feed, SeedUrl(member), bound) == Prepend(gifs, requests, Crawl(feed, url, fuel))
      decreases fuel
    {
      // Query GIFs
      requests := requests + [url];
      if url !in feed {
        return Failure(Transport), requests;
      }
      var response := feed[url];
      if !IsSuccess(response.status) {
        return Failure(ResponseError(response.status)), requests;
      }
      var page;
      match response.body {
        case Unreadable =>
          return Failure(Transport), requests;
        case Malformed =>
          return Failure(Decode), requests;
        case Json(p) =>
          page := p;
      }

      // Append GIFs
      PrependPrepend(gifs, requests[..|requests| - 1], page.results, [url],
        if page.next.Some? then Crawl(feed, page.next.value, fuel - 1) else OutOfFuel);
      gifs := gifs + page.results;

      // Check for more
      match page.next {
        case Some(u) =>
          url := u;
        case None =>
          break;
      }
      fuel := fuel - 1;
    }
    r := Success(gifs);
  }
}
