/** The metadata source itself (class `PWN`) and its per-candidate workers
    (class `Worker`), run one after another: a worker runs to completion when
    it is started, and the abort flag keeps one value for the whole call. */
module Plugin {
  import opened Wrappers
  import opened Web
  import opened Search
  import opened Book
  import opened Records

  /** What the caller knows of the book: `title`, `authors` and `identifiers`. */
  datatype Identity = Identity(
    title: Option<string>,
    authors: Option<seq<string>>,
    identifiers: map<string, string>)

  /** The host application's collaborators, whose insides are not modelled. */
  datatype Host = Host(
    checkIsbn: Option<string> -> Option<string>,        // check_isbn
    titleTokens: Option<string> -> seq<string>,         // get_title_tokens(_, strip_joiners=False, strip_subtitle=True)
    authorTokens: Option<string> -> seq<string>,        // get_author_tokens(_, only_first_author=True)
    parse: seq<byte> -> Document,                       // decoding, cleaning and parsing a page
    clean: Metadata -> Metadata,                        // clean_downloaded_metadata
    rank: (Identity, seq<Metadata>) -> seq<Metadata>,   // sorting by identify_results_keygen(...)
    cachedCoverUrl: (CoverCache, map<string, string>) -> Option<string>)  // Source.get_cached_cover_url

  /** The host's cover URL cache, keyed by the identifier a worker chose. */
  type CoverCache = map<Option<string>, string>

  // ----- PWN.create_query -----

  /** `check_isbn(identifiers.get('isbn', None))`. */
  function CheckedIsbn(host: Host, identity: Identity): Option<string> {
    host.checkIsbn(Get(identity.identifiers, "isbn"))
  }

  /** A built search URL as the query; the builder's error escapes. */
  function Query(url: Result<Url>): Result<Option<Url>> {
    match url
    case Err(e) => Err(e)
    case Ok(u) => Ok(Some(u))
  }

  /** `create_query`: the search URL for a lookup, if there is one; building
      it raises when a query value is not ASCII. */
  function CreateQuery(host: Host, identity: Identity): Result<Option<Url>> {
    var isbn := CheckedIsbn(host, identity);
    if Truthy(isbn) then
      if |isbn.value| == 13 then Query(UrlFromIsbn13(isbn.value))
      else if |isbn.value| == 10 then Query(UrlFromIsbn10(isbn.value))
      else Ok(None)
    else
      var titleTokens := host.titleTokens(identity.title);
      var authorTokens := host.authorTokens(identity.title);
      Query(UrlFromTitleAndAuthor(titleTokens, authorTokens))
  }

  /** A valid 13-character ISBN gives the EAN search for it and a 10-character
      one the identifier search, whatever the title; only without a valid ISBN
      is the name-and-creator search built, from the space-joined title tokens
      and author tokens that are both taken from the title. There is no query
      only for a valid ISBN of another length. Building the chosen query
      raises `UnicodeEncodeError` exactly when one of its values is not ASCII. */
  lemma CreateQuerySpec(host: Host, identity: Identity)
    ensures var isbn := CheckedIsbn(host, identity);
      var query := CreateQuery(host, identity);
      var title := Join(host.titleTokens(identity.title));
      var author := Join(host.authorTokens(identity.title));
      && (query == Ok(None) <==> Truthy(isbn) && |isbn.value| != 13 && |isbn.value| != 10)
      && (query.Err? <==>
            if Truthy(isbn) then (|isbn.value| == 13 || |isbn.value| == 10) && !Ascii(isbn.value)
            else !(Ascii(title) && Ascii(author)))
      && (query.Err? ==> query.error == UnicodeEncodeError)
      && (Truthy(isbn) && |isbn.value| == 13 && Ascii(isbn.value) ==>
            query == Ok(Some(SearchUrl(map["fa_ean" := isbn.value]))))
      && (Truthy(isbn) && |isbn.value| == 10 && Ascii(isbn.value) ==>
            query == Ok(Some(SearchUrl(map["faa_bookIdent" := isbn.value]))))
      && (!Truthy(isbn) && Ascii(title) && Ascii(author) ==>
            query == Ok(Some(SearchUrl(map["faa_name" := title, "faa_creator" := author]))))
  {
    var isbn := CheckedIsbn(host, identity);
    BuildersSelectStrategy(if isbn.Some? then isbn.value else "",
                           host.titleTokens(identity.title), host.authorTokens(identity.title));
  }

  /** The ISBN strategies take priority: the strategy of the query is the EAN
      search exactly for a valid 13-character ASCII ISBN, the identifier search
      exactly for a valid 10-character one, and the name-and-creator search
      exactly when there is no valid ISBN and the joined tokens are ASCII. */
  lemma CreateQueryStrategy(host: Host, identity: Identity)
    ensures var isbn := CheckedIsbn(host, identity);
      var query := CreateQuery(host, identity);
      var strategy := if query.Ok? && query.value.Some? then StrategyOf(query.value.value) else None;
      var words := Ascii(Join(host.titleTokens(identity.title))) && Ascii(Join(host.authorTokens(identity.title)));
      && (strategy == Some(ByEan) <==> Truthy(isbn) && |isbn.value| == 13 && Ascii(isbn.value))
      && (strategy == Some(ByBookIdent) <==> Truthy(isbn) && |isbn.value| == 10 && Ascii(isbn.value))
      && (strategy == Some(ByNameAndCreator) <==> !Truthy(isbn) && words)
  {
    var isbn := CheckedIsbn(host, identity);
    BuildersSelectStrategy(if isbn.Some? then isbn.value else "",
                           host.titleTokens(identity.title), host.authorTokens(identity.title));
  }

  /** The `authors` argument plays no part in the query. */
  lemma CreateQueryIgnoresAuthors(host: Host, identity: Identity, authors: Option<seq<string>>)
    ensures CreateQuery(host, identity) == CreateQuery(host, identity.(authors := authors))
  {
  }

  // ----- One worker: Worker.run -----

  /** The candidate's dictionary, as `Book.from_url` yields it. */
  function WorkerBook(host: Host, pages: map<Url, seq<byte>>, url: string): Result<Properties> {
    BookOf(host.parse, pages, Address(url))
  }

  /** The record a worker publishes for `url`, if any. */
  function WorkerRecord(host: Host, pages: map<Url, seq<byte>>, url: string): Option<Metadata> {
    match WorkerBook(host, pages, url)
    case Err(_) => None
    case Ok(book) =>
      match Normalise(book)
      case None => None
      case Some(mi) => Some(host.clean(mi))
  }

  /** The cover cache after a worker for `url`: a published record whose page
      has a cover URL caches it under the record's identifier. */
  function WorkerCache(cache: CoverCache, host: Host, pages: map<Url, seq<byte>>, url: string): CoverCache {
    match WorkerBook(host, pages, url)
    case Err(_) => cache
    case Ok(book) =>
      if Incomplete(book) || !Truthy(book.coverUrl) then cache
      else cache[ChosenIdentifier(book) := book.coverUrl.value]
  }

  /** A worker publishes a record exactly when its page is fetched and read
      and has a title and authors; the cover cache changes only for a record
      that has a cover, and then holds its cover URL under its identifier. */
  lemma WorkerSpec(cache: CoverCache, host: Host, pages: map<Url, seq<byte>>, url: string)
    ensures WorkerRecord(host, pages, url).Some? <==>
      WorkerBook(host, pages, url).Ok? && !Incomplete(WorkerBook(host, pages, url).value)
    ensures WorkerRecord(host, pages, url).Some? ==>
      var book := WorkerBook(host, pages, url).value;
      && Normalise(book).Some?
      && WorkerRecord(host, pages, url).value == host.clean(Normalise(book).value)
      && (Normalise(book).value.hasCover ==>
            WorkerCache(cache, host, pages, url) == cache[ChosenIdentifier(book) := book.coverUrl.value])
      && (!Normalise(book).value.hasCover ==> WorkerCache(cache, host, pages, url) == cache)
    ensures WorkerRecord(host, pages, url).None? ==> WorkerCache(cache, host, pages, url) == cache
  {
  }

  // ----- PWN.identify -----

  /** An optional value as a list of at most one element. */
  function AsSeq<T>(o: Option<T>): seq<T> {
    if o.Some? then [o.value] else []
  }

  /** The records the workers for `urls`, run in order, publish. */
  function Published(host: Host, pages: map<Url, seq<byte>>, urls: seq<string>): seq<Metadata>
    decreases |urls|
  {
    if urls == [] then []
    else Published(host, pages, urls[..|urls| - 1]) + AsSeq(WorkerRecord(host, pages, urls[|urls| - 1]))
  }

  /** The cover cache after the workers for `urls`, run in order. */
  function CacheAfter(cache: CoverCache, host: Host, pages: map<Url, seq<byte>>, urls: seq<string>): CoverCache
    decreases |urls|
  {
    if urls == [] then cache
    else WorkerCache(CacheAfter(cache, host, pages, urls[..|urls| - 1]), host, pages, urls[|urls| - 1])
  }

  /** The requests of the workers for `urls`: one detail page each, in order. */
  function Links(urls: seq<string>): seq<Url> {
    seq(|urls|, i requires 0 <= i < |urls| => Address(urls[i]))
  }

  /** One more worker adds its request, its record if any, and its cache entry. */
  lemma RunStep(cache: CoverCache, host: Host, pages: map<Url, seq<byte>>, urls: seq<string>, i: nat)
    requires i < |urls|
    ensures Links(urls[..i + 1]) == Links(urls[..i]) + [Address(urls[i])]
    ensures Published(host, pages, urls[..i + 1]) ==
      Published(host, pages, urls[..i]) + AsSeq(WorkerRecord(host, pages, urls[i]))
    ensures CacheAfter(cache, host, pages, urls[..i + 1]) ==
      WorkerCache(CacheAfter(cache, host, pages, urls[..i]), host, pages, urls[i])
  {
    assert urls[..i + 1][..i] == urls[..i];
  }

  /** The workers for two lists of candidates publish one after the other. */
  lemma {:induction false} PublishedAppend(host: Host, pages: map<Url, seq<byte>>, a: seq<string>, b: seq<string>)
    ensures Published(host, pages, a + b) == Published(host, pages, a) + Published(host, pages, b)
    decreases |b|
  {
    if b == [] {
      assert a + b == a;
    } else {
      var b' := b[..|b| - 1];
      assert (a + b)[..|a + b| - 1] == a + b';
      assert (a + b)[|a + b| - 1] == b[|b| - 1];
      PublishedAppend(host, pages, a, b');
    }
  }

  /** The last worker adds one record or none. */
  lemma PublishedLast(host: Host, pages: map<Url, seq<byte>>, urls: seq<string>)
    requires urls != []
    ensures WorkerRecord(host, pages, urls[|urls| - 1]).Some? ==>
      |Published(host, pages, urls)| == |Published(host, pages, urls[..|urls| - 1])| + 1
    ensures WorkerRecord(host, pages, urls[|urls| - 1]).None? ==>
      |Published(host, pages, urls)| == |Published(host, pages, urls[..|urls| - 1])|
  {
  }

  /** Each worker publishes at most one record, and every worker publishes
      one exactly when every candidate page yields a complete record. */
  lemma {:induction false} PublishedCount(host: Host, pages: map<Url, seq<byte>>, urls: seq<string>)
    ensures |Published(host, pages, urls)| <= |urls|
    ensures |Published(host, pages, urls)| == |urls| <==>
      forall i :: 0 <= i < |urls| ==> WorkerRecord(host, pages, urls[i]).Some?
    decreases |urls|
  {
    if urls != [] {
      var init := urls[..|urls| - 1];
      PublishedCount(host, pages, init);
      PublishedLast(host, pages, urls);
      if WorkerRecord(host, pages, urls[|urls| - 1]).Some? {
        assert forall i :: 0 <= i < |init| ==> init[i] == urls[i];
      }
    }
  }

  /** A candidate that yields no record contributes nothing: the others
      publish what they would have published without it. */
  lemma DroppedCandidate(host: Host, pages: map<Url, seq<byte>>, a: seq<string>, bad: string, b: seq<string>)
    requires WorkerRecord(host, pages, bad).None?
    ensures Published(host, pages, a + [bad] + b) == Published(host, pages, a + b)
  {
    PublishedAppend(host, pages, a + [bad], b);
    PublishedAppend(host, pages, a, b);
    assert (a + [bad])[..|a + [bad]| - 1] == a;
  }

  /** What one call of `identify` does: how it ends, the requests it makes,
      the records it publishes and the cover cache it leaves. */
  datatype IdentifyRun = IdentifyRun(
    outcome: Outcome,
    requests: seq<Url>,
    published: seq<Metadata>,
    cache: CoverCache)

  /** `identify` run sequentially on a site serving `pages`, with abort flag `abort`. */
  function IdentifySpec(host: Host, pages: map<Url, seq<byte>>, cache: CoverCache, abort: bool, identity: Identity): IdentifyRun {
    match CreateQuery(host, identity)
    case Err(e) => IdentifyRun(Raised(e), [], [], cache)
    case Ok(None) => IdentifyRun(Returned, [], [], cache)
    case Ok(Some(query)) => SearchRun(host, pages, cache, abort, query)
  }

  /** The part of `identify` after the query is built: the search, then the workers. */
  function SearchRun(host: Host, pages: map<Url, seq<byte>>, cache: CoverCache, abort: bool, query: Url): IdentifyRun {
    match SearchResultsOf(host.parse, pages, query)
    case Err(e) => IdentifyRun(Raised(e), [query], [], cache)
    case Ok(urls) =>
      if abort then IdentifyRun(Returned, [query], [], cache)
      else IdentifyRun(Returned, [query] + Links(urls), Published(host, pages, urls), CacheAfter(cache, host, pages, urls))
  }

  /** Without a query `identify` returns before any request, and a query it
      cannot build escapes it before any request. */
  lemma IdentifyWithoutQuery(host: Host, pages: map<Url, seq<byte>>, cache: CoverCache, abort: bool, identity: Identity)
    ensures var run := IdentifySpec(host, pages, cache, abort, identity);
      var query := CreateQuery(host, identity);
      && (query.Err? ==> run == IdentifyRun(Raised(query.error), [], [], cache))
      && (query == Ok(None) ==> run == IdentifyRun(Returned, [], [], cache))
  {
  }

  /** With a query `identify` fetches the search page first; a failed search
      escapes it; an abort after the search starts no worker. Otherwise exactly
      one worker per candidate URL runs, in candidate order, and at most one
      record is published per candidate. */
  lemma IdentifyControlFlow(host: Host, pages: map<Url, seq<byte>>, cache: CoverCache, abort: bool, identity: Identity)
    requires CreateQuery(host, identity).Ok? && CreateQuery(host, identity).value.Some?
    ensures var run := IdentifySpec(host, pages, cache, abort, identity);
      var query := CreateQuery(host, identity).value.value;
      var search := SearchResultsOf(host.parse, pages, query);
      && run.requests != [] && run.requests[0] == query
      && (run.outcome.Raised? <==> search.Err?)
      && (search.Err? || abort ==> run.requests == [query] && run.published == [] && run.cache == cache)
      && (search.Ok? && !abort ==>
            && |run.requests| == 1 + |search.value|
            && (forall i :: 0 <= i < |search.value| ==> run.requests[i + 1] == Address(search.value[i]))
            && |run.published| <= |search.value|)
  {
    var run := IdentifySpec(host, pages, cache, abort, identity);
    var query := CreateQuery(host, identity).value.value;
    match SearchResultsOf(host.parse, pages, query)
    case Err(e) =>
      assert run == IdentifyRun(Raised(e), [query], [], cache);
    case Ok(urls) =>
      if !abort {
        assert run.requests == [query] + Links(urls);
        forall i | 0 <= i < |urls| ensures run.requests[i + 1] == Address(urls[i]) {
          assert run.requests[i + 1] == Links(urls)[i];
        }
        assert run.published == Published(host, pages, urls);
        PublishedCount(host, pages, urls);
      }
  }

  /** Under Python 2's stock ASCII default codec, a title whose only token is
      "Łódź", with no valid ISBN: the query cannot be encoded, so `identify`
      raises before any request. */
  lemma NonAsciiTitle(host: Host, pages: map<Url, seq<byte>>, cache: CoverCache, abort: bool, identity: Identity)
    requires !Truthy(CheckedIsbn(host, identity))
    requires host.titleTokens(identity.title) == ["\U{141}\U{F3}d\U{17A}"]
    ensures CreateQuery(host, identity) == Err(UnicodeEncodeError)
    ensures IdentifySpec(host, pages, cache, abort, identity) == IdentifyRun(Raised(UnicodeEncodeError), [], [], cache)
  {
    var tokens := host.titleTokens(identity.title);
    assert !Ascii(tokens[0]) by {
      assert tokens[0][0] as int == 0x0141;
    }
    JoinAscii(tokens);
    CreateQuerySpec(host, identity);
  }

  // ----- PWN.download_cover -----

  /** The scan of the sorted results: the cached cover URL of the first record that has one. */
  function FirstCachedCover(host: Host, cache: CoverCache, results: seq<Metadata>): Option<string>
    decreases |results|
  {
    if results == [] then None
    else
      match host.cachedCoverUrl(cache, results[0].identifiers)
      case Some(url) => Some(url)
      case None => FirstCachedCover(host, cache, results[1..])
  }

  /** The scan finds a URL exactly when some record has a cached cover URL,
      and then it is that of the first such record in the given order. */
  lemma {:induction false} FirstCachedCoverSpec(host: Host, cache: CoverCache, results: seq<Metadata>)
    ensures FirstCachedCover(host, cache, results).None? <==>
      forall i :: 0 <= i < |results| ==> host.cachedCoverUrl(cache, results[i].identifiers).None?
    ensures FirstCachedCover(host, cache, results).Some? ==>
      exists k :: 0 <= k < |results| &&
        host.cachedCoverUrl(cache, results[k].identifiers) == FirstCachedCover(host, cache, results) &&
        forall j :: 0 <= j < k ==> host.cachedCoverUrl(cache, results[j].identifiers).None?
    decreases |results|
  {
    if results != [] {
      FirstCachedCoverSpec(host, cache, results[1..]);
      assert forall i :: 0 <= i < |results[1..]| ==> results[1..][i] == results[i + 1];
      if host.cachedCoverUrl(cache, results[0].identifiers).None? && FirstCachedCover(host, cache, results).Some? {
        var k :| 0 <= k < |results[1..]| &&
          host.cachedCoverUrl(cache, results[1..][k].identifiers) == FirstCachedCover(host, cache, results[1..]) &&
          forall j :: 0 <= j < k ==> host.cachedCoverUrl(cache, results[1..][j].identifiers).None?;
        assert forall j :: 0 <= j < k + 1 ==> host.cachedCoverUrl(cache, results[j].identifiers).None?;
      }
    }
  }

  /** The host's sort only reorders the results: it keeps each record, as often as it occurs. */
  ghost predicate RanksByReordering(host: Host) {
    forall identity: Identity, results: seq<Metadata> ::
      multiset(host.rank(identity, results)) == multiset(results)
  }

  /** Reordering the results changes neither whether some record has a cached
      cover URL nor which records there are to find one in. */
  lemma ReorderedLookup(host: Host, cache: CoverCache, ranked: seq<Metadata>, results: seq<Metadata>)
    requires multiset(ranked) == multiset(results)
    ensures (forall i :: 0 <= i < |ranked| ==> host.cachedCoverUrl(cache, ranked[i].identifiers).None?) <==>
      (forall j :: 0 <= j < |results| ==> host.cachedCoverUrl(cache, results[j].identifiers).None?)
    ensures forall i :: 0 <= i < |ranked| ==> exists j :: 0 <= j < |results| && results[j] == ranked[i]
  {
    forall i | 0 <= i < |ranked| ensures exists j :: 0 <= j < |results| && results[j] == ranked[i] {
      assert ranked[i] in multiset(ranked);
      assert ranked[i] in results;
    }
    forall j | 0 <= j < |results| ensures exists i :: 0 <= i < |ranked| && ranked[i] == results[j] {
      assert results[j] in multiset(results);
      assert results[j] in ranked;
    }
  }

  /** What one call of `download_cover` does: how it ends, the requests it
      makes, the images it puts on the result queue and the cover cache it leaves. */
  datatype CoverRun = CoverRun(
    outcome: Outcome,
    requests: seq<Url>,
    covers: seq<seq<byte>>,
    cache: CoverCache)

  /** The end of `download_cover`: nothing without a URL or after an abort,
      otherwise one request for the image, which is put on the queue unless
      the request fails. */
  function Download(pages: map<Url, seq<byte>>, abort: bool, url: Option<string>,
                    requests: seq<Url>, cache: CoverCache): CoverRun {
    if url.None? || abort then CoverRun(Returned, requests, [], cache)
    else
      var image := Open(pages, Address(url.value));
      CoverRun(Returned, requests + [Address(url.value)], if image.Ok? then [image.value] else [], cache)
  }

  /** The raw ISBN of the lookup's identifiers, when it has a cached cover URL. */
  function CachedByIsbn(cache: CoverCache, identity: Identity): Option<string> {
    var isbn := Get(identity.identifiers, "isbn");
    if Truthy(isbn) then Get(cache, isbn) else None
  }

  /** `download_cover` run sequentially on a site serving `pages`, with abort flag `abort`. */
  function CoverSpec(host: Host, pages: map<Url, seq<byte>>, cache: CoverCache, abort: bool, identity: Identity): CoverRun {
    var cached := CachedByIsbn(cache, identity);
    if cached.Some? then Download(pages, abort, cached, [], cache)
    else
      var run := IdentifySpec(host, pages, cache, abort, identity);
      if run.outcome.Raised? then CoverRun(run.outcome, run.requests, [], run.cache)
      else if abort then CoverRun(Returned, run.requests, [], run.cache)
      else Download(pages, abort, FirstCachedCover(host, run.cache, host.rank(identity, run.published)), run.requests, run.cache)
  }

  /** A cached cover URL for the lookup's raw ISBN is used without any search.
      Otherwise, when the host's sort only reorders the records, the image URL
      is found exactly when some record published by a fresh identify run has
      a cached cover URL, and it is that of the first such record in the
      host's order. With a URL and no abort the image fetched from it, if the
      site serves it, is the one image put on the queue; an aborted call puts
      no image there, and neither does a call that finds no URL. */
  lemma CoverControlFlow(host: Host, pages: map<Url, seq<byte>>, cache: CoverCache, abort: bool, identity: Identity)
    requires RanksByReordering(host)
    ensures var run := CoverSpec(host, pages, cache, abort, identity);
      && |run.covers| <= 1
      && (abort ==> run.covers == [])
      && (CachedByIsbn(cache, identity).Some? ==>
            var url := CachedByIsbn(cache, identity).value;
            && run.cache == cache
            && run.requests == (if abort then [] else [Address(url)])
            && (!abort ==> run.covers == (if Address(url) in pages then [pages[Address(url)]] else [])))
      && (CachedByIsbn(cache, identity).None? && !abort ==>
            var identified := IdentifySpec(host, pages, cache, abort, identity);
            var published := identified.published;
            var ranked := host.rank(identity, published);
            && run.cache == identified.cache
            && (identified.outcome.Raised? ==>
                  run.outcome == identified.outcome && run.requests == identified.requests && run.covers == [])
            && (identified.outcome.Returned? ==>
                  && (FirstCachedCover(host, identified.cache, ranked).None? <==>
                        forall j :: 0 <= j < |published| ==> host.cachedCoverUrl(identified.cache, published[j].identifiers).None?)
                  && match FirstCachedCover(host, identified.cache, ranked)
                     case None => run.requests == identified.requests && run.covers == []
                     case Some(url) =>
                       && run.requests == identified.requests + [Address(url)]
                       && run.covers == (if Address(url) in pages then [pages[Address(url)]] else [])
                       && (exists j :: 0 <= j < |published| &&
                             host.cachedCoverUrl(identified.cache, published[j].identifiers) == Some(url))
                       && (exists k :: 0 <= k < |ranked| &&
                             host.cachedCoverUrl(identified.cache, ranked[k].identifiers) == Some(url) &&
                             forall i :: 0 <= i < k ==> host.cachedCoverUrl(identified.cache, ranked[i].identifiers).None?)))
  {
    if CachedByIsbn(cache, identity).None? && !abort {
      var identified := IdentifySpec(host, pages, cache, abort, identity);
      var ranked := host.rank(identity, identified.published);
      FirstCachedCoverSpec(host, identified.cache, ranked);
      ReorderedLookup(host, identified.cache, ranked, identified.published);
      if identified.outcome.Returned? && FirstCachedCover(host, identified.cache, ranked).Some? {
        var url := FirstCachedCover(host, identified.cache, ranked).value;
        var k :| 0 <= k < |ranked| && host.cachedCoverUrl(identified.cache, ranked[k].identifiers) == Some(url) &&
          forall i :: 0 <= i < k ==> host.cachedCoverUrl(identified.cache, ranked[i].identifiers).None?;
        var j :| 0 <= j < |identified.published| && identified.published[j] == ranked[k];
      }
    }
  }

  /** When the host's lookup by identifiers never finds a URL, as a plugin that
      does not override it gets from the host, only a cached URL for the raw
      ISBN can give an image: otherwise no image is queued. */
  lemma NoLookupNoCover(host: Host, pages: map<Url, seq<byte>>, cache: CoverCache, abort: bool, identity: Identity)
    requires forall c: CoverCache, ids: map<string, string> :: host.cachedCoverUrl(c, ids) == None
    requires CachedByIsbn(cache, identity).None?
    ensures CoverSpec(host, pages, cache, abort, identity).covers == []
  {
    var run := IdentifySpec(host, pages, cache, abort, identity);
    FirstCachedCoverSpec(host, run.cache, host.rank(identity, run.published));
  }

  /** The queued results of a cover download: each image paired with the source that found it. */
  function Tagged<S>(source: S, images: seq<seq<byte>>): seq<(S, seq<byte>)> {
    seq(|images|, i requires 0 <= i < |images| => (source, images[i]))
  }

  // ----- The objects -----

  /** The host's `Queue`: first in, first out. */
  class Queue<T> {
    var items: seq<T>

    constructor ()
      ensures items == []
    {
      items := [];
    }

    /** `put(x)`. */
    method Put(x: T)
      modifies this
      ensures items == old(items) + [x]
    {
      items := items + [x];
    }

    /** `get_nowait()`: the oldest item, or `None` for the `Empty` exception. */
    method GetNowait() returns (r: Option<T>)
      modifies this
      ensures old(items) == [] ==> r == None && items == []
      ensures old(items) != [] ==> r == Some(old(items)[0]) && items == old(items)[1..]
    {
      if items == [] {
        r := None;
      } else {
        r := Some(items[0]);
        items := items[1..];
      }
    }
  }

  /** The `get_nowait` loop of `download_cover`: everything on the queue, oldest first. */
  method Drain<T>(queue: Queue<T>) returns (results: seq<T>)
    modifies queue
    ensures results == old(queue.items) && queue.items == []
  {
    results := [];
    while true
      invariant results + queue.items == old(queue.items)
      decreases |queue.items|
    {
      var item := queue.GetNowait();
      if item.None? {
        break;
      }
      results := results + [item.value];
    }
  }

  /** `Worker`: fetches one candidate's detail page and publishes its record. */
  class Worker {
    const url: string
    const resultQueue: Queue<Metadata>
    const browser: Browser
    const relevance: int
    const plugin: Pwn

    constructor (url: string, resultQueue: Queue<Metadata>, browser: Browser, relevance: int, plugin: Pwn)
      ensures this.url == url && this.resultQueue == resultQueue && this.browser == browser
      ensures this.relevance == relevance && this.plugin == plugin
    {
      this.url := url;
      this.resultQueue := resultQueue;
      this.browser := browser;
      this.relevance := relevance;
      this.plugin := plugin;
    }

    /** `Worker.run`: any failure publishes nothing; a record without title or
        authors is dropped; otherwise its cover URL is cached and the cleaned
        record is put on the queue. */
    method Run()
      modifies plugin, resultQueue, browser
      ensures browser.requests == old(browser.requests) + [Address(url)]
      ensures resultQueue.items == old(resultQueue.items) + AsSeq(WorkerRecord(plugin.host, browser.pages, url))
      ensures plugin.coverCache == WorkerCache(old(plugin.coverCache), plugin.host, browser.pages, url)
    {
      var book := Book.FromUrl(plugin.host.parse, browser, Address(url));
      if book.Err? {
        return;
      }
      var b := book.value;
      if !Truthy(b.title) || b.authors.None? || b.authors.value == [] {
        return;
      }
      var mi := NewMetadata(b.title.value, b.authors.value);
      var isbn := if Truthy(b.ean) then b.ean else b.isbn;
      if Truthy(isbn) {
        mi := mi.(identifiers := mi.identifiers["isbn" := isbn.value]);
      }
      if b.pubdate.Some? {
        mi := mi.(pubdate := b.pubdate);
      }
      if b.rating.Some? {
        mi := mi.(rating := b.rating);
      }
      if b.languages.Some? {
        mi := mi.(languages := b.languages.value);
      }
      if Truthy(b.publisher) {
        mi := mi.(publisher := b.publisher);
      }
      if Truthy(b.coverUrl) {
        plugin.CacheIdentifierToCoverUrl(isbn, b.coverUrl.value);
        mi := mi.(hasCover := true);
      }
      assert Normalise(b) == Some(mi);
      mi := plugin.host.clean(mi);
      resultQueue.Put(mi);
    }
  }

  /** The metadata source `PWN`, with the cover cache it inherits from the host's `Source`. */
  class Pwn {
    const host: Host
    const browser: Browser
    var coverCache: CoverCache

    constructor (host: Host, browser: Browser)
      ensures this.host == host && this.browser == browser && coverCache == map[]
    {
      this.host := host;
      this.browser := browser;
      coverCache := map[];
    }

    /** `cache_identifier_to_cover_url(id, url)`. */
    method CacheIdentifierToCoverUrl(id: Option<string>, url: string)
      modifies this
      ensures coverCache == old(coverCache)[id := url]
    {
      coverCache := coverCache[id := url];
    }

    /** `identify`: build the query, search, then run one worker per candidate. */
    method Identify(resultQueue: Queue<Metadata>, abort: bool, identity: Identity) returns (r: Outcome)
      modifies this, browser, resultQueue
      ensures var run := IdentifySpec(host, browser.pages, old(coverCache), abort, identity);
        && r == run.outcome
        && browser.requests == old(browser.requests) + run.requests
        && resultQueue.items == old(resultQueue.items) + run.published
        && coverCache == run.cache
    {
      var built := CreateQuery(host, identity);
      if built.Err? {
        return Raised(built.error);
      }
      if built.value.None? {
        return Returned;
      }
      r := SearchAndRun(resultQueue, abort, built.value.value);
    }

    /** `identify` once the query is built: search, then run one worker per candidate. */
    method SearchAndRun(resultQueue: Queue<Metadata>, abort: bool, query: Url) returns (r: Outcome)
      modifies this, browser, resultQueue
      ensures var run := SearchRun(host, browser.pages, old(coverCache), abort, query);
        && r == run.outcome
        && browser.requests == old(browser.requests) + run.requests
        && resultQueue.items == old(resultQueue.items) + run.published
        && coverCache == run.cache
    {
      ghost var pages := browser.pages;
      var found := Search.FromUrl(host.parse, browser, query);
      if found.Err? {
        return Raised(found.error);
      }
      if abort {
        return Returned;
      }
      var urls := found.value;
      var workers := SpawnWorkers(urls, resultQueue);
      StartWorkers(workers, urls, resultQueue);
      r := Returned;
    }

    /** The loop that starts the workers, each of which runs to completion here. */
    method StartWorkers(workers: seq<Worker>, ghost urls: seq<string>, resultQueue: Queue<Metadata>)
      requires |workers| == |urls|
      requires forall k :: 0 <= k < |urls| ==> workers[k].url == urls[k]
      requires forall k :: 0 <= k < |workers| ==>
        workers[k].browser == browser && workers[k].plugin == this && workers[k].resultQueue == resultQueue
      modifies this, browser, resultQueue
      ensures browser.requests == old(browser.requests) + Links(urls)
      ensures resultQueue.items == old(resultQueue.items) + Published(host, browser.pages, urls)
      ensures coverCache == CacheAfter(old(coverCache), host, browser.pages, urls)
    {
      for i := 0 to |workers|
        invariant browser.requests == old(browser.requests) + Links(urls[..i])
        invariant resultQueue.items == old(resultQueue.items) + Published(host, browser.pages, urls[..i])
        invariant coverCache == CacheAfter(old(coverCache), host, browser.pages, urls[..i])
      {
        var w := workers[i];
        assert w.url == urls[i] && w.browser == browser && w.plugin == this && w.resultQueue == resultQueue;
        RunStep(old(coverCache), host, browser.pages, urls, i);
        w.Run();
      }
      assert urls[..|workers|] == urls;
    }

    /** `[Worker(url, result_queue, self.browser, log, 1, self) for url in urls]`. */
    method SpawnWorkers(urls: seq<string>, resultQueue: Queue<Metadata>) returns (workers: seq<Worker>)
      ensures |workers| == |urls|
      ensures forall k :: 0 <= k < |urls| ==>
        workers[k].url == urls[k] && workers[k].resultQueue == resultQueue &&
        workers[k].browser == browser && workers[k].plugin == this && workers[k].relevance == 1
    {
      workers := [];
      for i := 0 to |urls|
        invariant |workers| == i
        invariant forall k :: 0 <= k < i ==>
          workers[k].url == urls[k] && workers[k].resultQueue == resultQueue &&
          workers[k].browser == browser && workers[k].plugin == this && workers[k].relevance == 1
      {
        var w := new Worker(urls[i], resultQueue, browser, 1, this);
        workers := workers + [w];
      }
    }

    /** The scan of `download_cover` over the sorted results: the cached cover
        URL of the first record that has one. */
    method FirstCachedCoverUrl(results: seq<Metadata>) returns (cachedUrl: Option<string>)
      ensures cachedUrl == FirstCachedCover(host, coverCache, results)
    {
      cachedUrl := None;
      var i := 0;
      while i < |results|
        invariant 0 <= i <= |results|
        invariant cachedUrl.None?
        invariant FirstCachedCover(host, coverCache, results) == FirstCachedCover(host, coverCache, results[i..])
      {
        assert results[i..][1..] == results[i + 1..];
        cachedUrl := host.cachedCoverUrl(coverCache, results[i].identifiers);
        if cachedUrl.Some? {
          return;
        }
        i := i + 1;
      }
    }

    /** `download_cover`: the cached cover URL of the raw ISBN, or else the
        first cached URL among the records of a fresh identify run in the
        host's order; then the image is fetched and put on the queue. */
    method DownloadCover(resultQueue: Queue<(Pwn, seq<byte>)>, abort: bool, identity: Identity) returns (r: Outcome)
      modifies this, browser, resultQueue
      ensures var run := CoverSpec(host, browser.pages, old(coverCache), abort, identity);
        && r == run.outcome
        && browser.requests == old(browser.requests) + run.requests
        && resultQueue.items == old(resultQueue.items) + Tagged(this, run.covers)
        && coverCache == run.cache
    {
      ghost var pages := browser.pages;
      ghost var expected := CoverSpec(host, pages, coverCache, abort, identity);
      var cachedUrl: Option<string> := None;
      var isbn := Get(identity.identifiers, "isbn");
      if Truthy(isbn) {
        cachedUrl := Get(coverCache, isbn);
      }
      assert cachedUrl == CachedByIsbn(coverCache, identity);
      if cachedUrl.None? {
        ghost var identified := IdentifySpec(host, pages, coverCache, abort, identity);
        var rq := new Queue<Metadata>();
        var outcome := Identify(rq, abort, identity);
        assert outcome == identified.outcome && rq.items == identified.published && coverCache == identified.cache;
        if outcome.Raised? {
          assert expected == CoverRun(outcome, identified.requests, [], identified.cache);
          return outcome;
        }
        if abort {
          assert expected == CoverRun(Returned, identified.requests, [], identified.cache);
          return Returned;
        }
        var results := Drain(rq);
        results := host.rank(identity, results);
        cachedUrl := FirstCachedCoverUrl(results);
        assert expected == Download(pages, abort, cachedUrl, identified.requests, identified.cache);
      } else {
        assert expected == Download(pages, abort, cachedUrl, [], coverCache);
      }
      PutCover(resultQueue, abort, cachedUrl);
      r := Returned;
    }

    /** The end of `download_cover`: without a URL or after an abort nothing
        happens; otherwise the image is fetched and put on the queue, unless
        the request fails. */
    method PutCover(resultQueue: Queue<(Pwn, seq<byte>)>, abort: bool, cachedUrl: Option<string>)
      modifies browser, resultQueue
      ensures var run := Download(browser.pages, abort, cachedUrl, old(browser.requests), coverCache);
        && browser.requests == run.requests
        && resultQueue.items == old(resultQueue.items) + Tagged(this, run.covers)
    {
      if cachedUrl.None? {
        return;
      }
      if abort {
        return;
      }
      var cdata := browser.OpenNovisit(Address(cachedUrl.value));
      if cdata.Ok? {
        resultQueue.Put((this, cdata.value));
      }
    }
  }
}
