# PWN metadata source for Calibre, modelled in Dafny

The plugin `PWN` looks up books on the ksiegarnia.pwn.pl bookshop for the
Calibre e-book manager. `identify` turns what the caller knows of a book into
one search URL. It reads the candidate book URLs off the result page and runs
one `Worker` per candidate. Each worker reads the candidate's detail page
into a dictionary of properties and, if the dictionary has a title and
authors, turns it into a metadata record. It puts the record on the result
queue and caches the page's cover URL under the record's identifier.
`download_cover` uses a cached cover URL when it has one; otherwise it runs
`identify` first, and then fetches the image.

The model has six modules:

- `Wrappers`: `Option`, `Result` and the Python exceptions that matter.
- `Web`: URLs, the parsed page as the results of the XPath queries the plugin makes, and a `Browser` that keeps a log of its requests.
- `Search`: the URL builders and the reading of the result page.
- `Book`: the reading of a detail page.
- `Records`: the metadata record a worker builds.
- `Plugin`: `create_query`, the `Worker` and `PWN` classes, and the host's queue.

Code that computes values is modelled with functions. The loops, and the
objects whose fields change, are methods and classes. Each of those is proved
equal to a specification function, and lemmas about that function state
what the plugin promises.

The host application's helpers become fields of a `Host` value:

- `check_isbn`
- the title and author tokenizers
- decoding and parsing a page
- `clean_downloaded_metadata`
- the ordering by `identify_results_keygen`
- `get_cached_cover_url`, which the plugin inherits without overriding it

The network is a fixed map from URLs to page bytes. The abort event is one
boolean for the whole call.

## Model

| member | source | states |
|---|---|---|
| Wrappers.Get | pwn-calibre/__init__.py:170 | `dict.get(key, None)`: `Some` of the stored value exactly when the key is present |
| Web.Open | pwn-calibre/__init__.py:31-32 | a request succeeds exactly when the site serves the URL, with that page; otherwise it is a fetch error |
| Web.Root | pwn-calibre/__init__.py:29-35 | definition of `root_from_url`'s result: the parsed page, or the fetch error; `Web.RootFromUrl` is proved to compute it |
| Web.Browser.OpenNovisit | pwn-calibre/__init__.py:31-32 | one request is appended to the browser's log and answered from the site |
| Web.RootFromUrl | pwn-calibre/__init__.py:29-35 | fetches exactly the given URL once and yields the parsed page, or the fetch error |
| Search.Ascii | pwn-calibre/__init__.py:39 | definition: text that `str()` converts without error under Python 2's stock ASCII default codec, every character below 128 |
| Search.UrlFromSearch | pwn-calibre/__init__.py:38-39 | definition: a search URL with the given parameters, or, under the ASCII default codec, `UnicodeEncodeError` when `urlencode`'s `str()` meets a key or value that is not ASCII (the percent-encoding is left out) |
| Search.UrlFromIsbn13 | pwn-calibre/__init__.py:44-45 | definition: the search on `fa_ean`; characterised by `Search.BuildersSelectStrategy` |
| Search.UrlFromIsbn10 | pwn-calibre/__init__.py:48-49 | definition: the search on `faa_bookIdent`; characterised by `Search.BuildersSelectStrategy` |
| Search.Join | pwn-calibre/__init__.py:53-54 | definition of `' '.join`; characterised by `Search.SplitJoin` |
| Search.UrlFromTitleAndAuthor | pwn-calibre/__init__.py:52-55 | definition: the search on `faa_name` and `faa_creator`, each the space-joined tokens; characterised by `Search.BuildersSelectStrategy` |
| Search.StrategyOf | pwn-calibre/__init__.py:44-55 | helper: which of the three searches a URL is, read off its parameter names |
| Search.JoinAscii | pwn-calibre/__init__.py:53-54 | the space-joined tokens are ASCII exactly when every token is |
| Search.BuildersSelectStrategy | pwn-calibre/__init__.py:38-55 | each builder succeeds exactly when its values are ASCII and raises `UnicodeEncodeError` otherwise. On success the ISBN-13 builder yields an EAN search, the ISBN-10 builder an identifier search, and the title-and-author builder a name-and-creator search |
| Search.Split | pwn-calibre/__init__.py:53-54 | reference inverse of the join, splitting on single spaces as Python's `str.split(' ')` does; the plugin never splits. It yields at least one piece |
| Search.SplitAfterWord | pwn-calibre/__init__.py:53-54 | helper for `Search.SplitJoin`: a word without spaces stays glued to the first piece that follows it |
| Search.SplitJoin | pwn-calibre/__init__.py:53-54 | joining non-empty lists of space-free tokens with single spaces loses nothing: splitting the result gives the tokens back |
| Search.Candidates | pwn-calibre/__init__.py:66-68 | definition of the loop over the result containers; characterised by `Search.CandidatesSpec` |
| Search.CandidatesSpec | pwn-calibre/__init__.py:62-72 | reading the result page fails with `IndexError` exactly when some result container has no link; otherwise each candidate is the shop's base URL followed by its container's first link, in page order |
| Search.ExtractCandidates | pwn-calibre/__init__.py:59-72 | the loop over the result containers computes exactly `Candidates` |
| Search.SearchResultsOf | pwn-calibre/__init__.py:57-72 | definition of what `SearchResults.from_url` yields; `Search.FromUrl` is proved to compute it |
| Search.FromUrl | pwn-calibre/__init__.py:57-72 | one request for the search URL, then the candidates of the parsed page, or the fetch or index error |
| Book.MatchesYear | pwn-calibre/__init__.py:95 | definition of `re.match('\d{4}', value)`: the value starts with four ASCII digits |
| Book.DigitRun | pwn-calibre/__init__.py:95-96 | the length of the run of ASCII digits that starts a value, which is at most its length and covers only digits |
| Book.DigitsValue | pwn-calibre/__init__.py:96 | helper: the decimal number a string of digits denotes |
| Book.ParseInt | pwn-calibre/__init__.py:96 | definition of `int(value)` for a value that starts with digits: `ValueError` unless only whitespace follows the digits |
| Book.EditionDate | pwn-calibre/__init__.py:96 | definition of `datetime.datetime(year=int(value), month=1, day=1)`: `OverflowError` for a year above 2147483647, the largest C `int`, and `ValueError` for the other years outside 1 to 9999; instances in `Book.PlainYear`, `Book.YearWithSuffix`, `Book.YearZero`, `Book.YearTooWide` |
| Book.PlainYear | pwn-calibre/__init__.py:95-96 | the edition value "2015" becomes 1 January 2015 |
| Book.YearWithSuffix | pwn-calibre/__init__.py:95-96 | "2015r" passes the four-digit pattern, but `int` raises `ValueError` for it |
| Book.YearZero | pwn-calibre/__init__.py:95-96 | "0000" passes the four-digit pattern, but `datetime` raises `ValueError` for year 0 |
| Book.AllDigitsRun | pwn-calibre/__init__.py:95-96 | helper for `Book.WideYearOverflows`: a value of digits only is one run of digits |
| Book.TooWideDigits | pwn-calibre/__init__.py:96 | helper for `Book.YearTooWide`: the digits "2147483648" denote 2147483648 |
| Book.WideYearOverflows | pwn-calibre/__init__.py:96 | a value of digits only whose number exceeds the largest C `int` makes `datetime` raise `OverflowError` |
| Book.YearTooWide | pwn-calibre/__init__.py:95-96 | "2147483648" passes the four-digit pattern and `int`, but `datetime` raises `OverflowError` for it |
| Book.Editions | pwn-calibre/__init__.py:94-95 | the values kept by the pattern all start with four digits, and there are no more of them than values |
| Book.LastEdition | pwn-calibre/__init__.py:96 | definition: the date after a list of edition values is 1 January of the last one's year |
| Book.ScanEditions | pwn-calibre/__init__.py:94-96 | definition of the inner loop over a "Wydanie:" entry's values; characterised by `Book.ScanEditionsSpec` |
| Book.AllValidCons | pwn-calibre/__init__.py:94-96 | helper for `Book.ScanEditionsOk`: a list of edition values is all valid exactly when its first value and the rest are |
| Book.ScanEditionsOk | pwn-calibre/__init__.py:94-96 | the scan over a "Wydanie:" entry's values succeeds exactly when every value that starts with four digits is a valid year |
| Book.ScanEditionsError | pwn-calibre/__init__.py:94-96 | the only exceptions the scan raises are `ValueError` and `OverflowError` |
| Book.ScanEditionsValue | pwn-calibre/__init__.py:94-96 | after a successful scan the date is 1 January of the year of the last value that starts with four digits, or unchanged if there is none |
| Book.ScanEditionsSpec | pwn-calibre/__init__.py:94-96 | the three facts about the scan together |
| Book.ScanEditionValues | pwn-calibre/__init__.py:94-96 | the loop over the edition values computes exactly `ScanEditions`, including its `ValueError` and `OverflowError` cases |
| Book.Label | pwn-calibre/__init__.py:88-91 | definition: an entry's h3 key, else its h2 key, else `IndexError` |
| Book.ApplyDescription | pwn-calibre/__init__.py:88-101 | definition of one iteration of the description loop; characterised by `Book.ApplyDescriptionStep` |
| Book.DescribeAll | pwn-calibre/__init__.py:87-101 | definition of the description loop; characterised by `Book.DescribeAllSpec` |
| Book.WellFormedDescription | pwn-calibre/__init__.py:88-101 | definition: an entry the description loop gets through |
| Book.EditionValues | pwn-calibre/__init__.py:87-96 | the edition values of all "Wydanie:" entries that start with four digits, in page order; they all match the pattern |
| Book.LastLabelled | pwn-calibre/__init__.py:87-101 | definition: the last description entry with a given label |
| Book.LastEditionAppend | pwn-calibre/__init__.py:87-96 | helper for `Book.DescribeAllValue`: the date after two groups of edition values is the date after the second group, starting from the date after the first |
| Book.ApplyDescriptionStep | pwn-calibre/__init__.py:88-101 | one description entry goes through exactly when it is well formed; it then changes only the key its label names |
| Book.DescribeAllOk | pwn-calibre/__init__.py:85-101 | the description loop succeeds exactly when every entry has an h3 or h2 label, a publisher entry has a link, and every edition value that starts with four digits is a valid year |
| Book.DescribeAllValue | pwn-calibre/__init__.py:85-101 | after the description loop the other keys are unchanged; the date comes from the last four-digit edition value, the authors from the whole link list of the last "Autor:" entry, and the publisher from the first link of the last "Wydawca:" entry |
| Book.DescribeAllSpec | pwn-calibre/__init__.py:85-101 | both halves of the description loop together |
| Book.ReadDescription | pwn-calibre/__init__.py:85-101 | the description loop computes exactly `DescribeAll` |
| Book.LanguageCodes | pwn-calibre/__init__.py:112-115 | definition: `["pl"]` for "polski", `[]` for any other language |
| Book.ApplyIdentifier | pwn-calibre/__init__.py:106-115 | definition of one iteration of the identifier loop; characterised by `Book.IdentifyAllSpec` |
| Book.IdentifyAll | pwn-calibre/__init__.py:105-115 | definition of the identifier loop; characterised by `Book.IdentifyAllSpec` |
| Book.WellFormedIdentifier | pwn-calibre/__init__.py:106-113 | definition: an entry the identifier loop gets through |
| Book.LastIdentifier | pwn-calibre/__init__.py:105-115 | definition: the last identifier entry with a given label |
| Book.IdentifyAllSpec | pwn-calibre/__init__.py:103-115 | the identifier loop fails with `IndexError` exactly when an entry has no label, or has no value under the label "ISBN:", "EAN:" or "Język wydania:". Otherwise the ISBN and EAN come from the last entry so labelled, and the languages are reset by the last language entry to `["pl"]` for "polski" and to `[]` otherwise; the other keys are unchanged |
| Book.ReadIdentifiers | pwn-calibre/__init__.py:103-115 | the identifier loop computes exactly `IdentifyAll` |
| Book.ExtractBook | pwn-calibre/__init__.py:78-117 | definition of the dictionary read off a detail page; characterised by `Book.ExtractBookSpec` |
| Book.ExtractBookSpec | pwn-calibre/__init__.py:77-117 | reading a detail page fails exactly when the rating, title or cover anchor is missing or some entry is malformed; otherwise every key of the dictionary is given in terms of the page |
| Book.FromRoot | pwn-calibre/__init__.py:78-117 | the anchor lookups and both loops compute exactly `ExtractBook` |
| Book.BookOf | pwn-calibre/__init__.py:77-117 | definition of what `Book.from_url` yields; `Book.FromUrl` is proved to compute it |
| Book.FromUrl | pwn-calibre/__init__.py:77-117 | one request for the detail page, then `ExtractBook` of the parsed page, or the fetch error |
| Records.NewMetadata | pwn-calibre/__init__.py:260 | definition of `Metadata(title, authors)`: nothing else set |
| Records.ChosenIdentifier | pwn-calibre/__init__.py:262 | definition of `book.get("ean") or book.get("isbn")` |
| Records.Incomplete | pwn-calibre/__init__.py:253 | definition: no truthy title, or no non-empty authors |
| Records.Normalise | pwn-calibre/__init__.py:253-275 | a dictionary without a truthy title or non-empty authors is dropped. Otherwise the record has that title and those authors, and its ISBN identifier is the EAN if truthy, else the ISBN if truthy, else absent. The date, rating and languages are copied when present, the publisher only when truthy, and the record has a cover exactly when the cover URL is truthy |
| Plugin.CheckedIsbn | pwn-calibre/__init__.py:170 | definition of `check_isbn(identifiers.get('isbn', None))` |
| Plugin.Query | pwn-calibre/__init__.py:171-181 | helper: a built search URL as the query, its build error escaping |
| Plugin.CreateQuery | pwn-calibre/__init__.py:167-181 | definition of `create_query`; characterised by `Plugin.CreateQuerySpec` and `Plugin.CreateQueryStrategy` |
| Plugin.CreateQuerySpec | pwn-calibre/__init__.py:167-181 | a valid ISBN of 13 characters gives the EAN search and one of 10 the identifier search. Without a valid ISBN, the name-and-creator search is built from the joined title tokens and the joined author tokens, both taken from the title. There is no query only for a valid ISBN of another length. Building the chosen query raises `UnicodeEncodeError` exactly when one of its values is not ASCII |
| Plugin.CreateQueryStrategy | pwn-calibre/__init__.py:167-181 | the query's strategy is the EAN search exactly for a valid 13-character ASCII ISBN, the identifier search exactly for a 10-character one, and the name-and-creator search exactly when there is no valid ISBN and the joined tokens are ASCII |
| Plugin.CreateQueryIgnoresAuthors | pwn-calibre/__init__.py:167-181 | the `authors` argument has no effect on the query |
| Plugin.WorkerBook | pwn-calibre/__init__.py:251 | definition: the candidate's dictionary as `Book.from_url` yields it |
| Plugin.WorkerRecord | pwn-calibre/__init__.py:251-278 | definition of the record a worker publishes, if any; characterised by `Plugin.WorkerSpec` |
| Plugin.WorkerCache | pwn-calibre/__init__.py:273-274 | definition of the cover cache after a worker; characterised by `Plugin.WorkerSpec` |
| Plugin.WorkerSpec | pwn-calibre/__init__.py:247-280 | a worker publishes a record exactly when its page is read and has a title and authors, and the record is the host-cleaned `Normalise` result. The cover cache changes only for a published record with a cover, which is then cached under the record's identifier |
| Plugin.AsSeq | pwn-calibre/__init__.py:278 | definition: an optional value as a list of at most one element, the record if there is one and nothing otherwise |
| Plugin.Published | pwn-calibre/__init__.py:147-150 | definition: the records the workers for a list of candidates publish, in order |
| Plugin.CacheAfter | pwn-calibre/__init__.py:147-150 | definition: the cover cache after the workers for a list of candidates |
| Plugin.Links | pwn-calibre/__init__.py:147-150 | definition: the detail-page requests for a list of candidates |
| Plugin.RunStep | pwn-calibre/__init__.py:149-150 | helper for `Plugin.Pwn.StartWorkers`: starting one more worker appends its request, its record and its cache update to those of the workers before it |
| Plugin.PublishedAppend | pwn-calibre/__init__.py:147-150 | the workers of two candidate lists publish one list after the other |
| Plugin.PublishedLast | pwn-calibre/__init__.py:149-150 | helper for `Plugin.PublishedCount`: the last worker adds one record exactly when it yields one |
| Plugin.PublishedCount | pwn-calibre/__init__.py:147-150 | no more records than candidates are published, and exactly as many exactly when every candidate yields a record |
| Plugin.DroppedCandidate | pwn-calibre/__init__.py:147-150 | a candidate that yields no record leaves the other candidates' records unchanged, in order |
| Plugin.IdentifySpec | pwn-calibre/__init__.py:133-165 | definition of one sequential `identify` call: outcome, requests, published records and cover cache; characterised by `Plugin.IdentifyControlFlow` |
| Plugin.SearchRun | pwn-calibre/__init__.py:140-165 | definition of `identify` once its query is built: the search, the abort test and the workers |
| Plugin.IdentifyWithoutQuery | pwn-calibre/__init__.py:133-138 | with no query, `identify` returns before any request; a query it cannot encode escapes it before any request |
| Plugin.IdentifyControlFlow | pwn-calibre/__init__.py:133-165 | with a query, the search comes first. A failed search escapes `identify`, and an abort after the search starts no worker. Otherwise exactly one detail request follows per candidate, in order, with at most one record per candidate |
| Plugin.NonAsciiTitle | pwn-calibre/__init__.py:133-181 | under the ASCII default codec, with no valid ISBN and "Łódź" as the title's only token, `urlencode` cannot encode the query, so `identify` raises `UnicodeEncodeError` before any request |
| Plugin.FirstCachedCover | pwn-calibre/__init__.py:210-213 | definition of the scan over the sorted results; characterised by `Plugin.FirstCachedCoverSpec` |
| Plugin.FirstCachedCoverSpec | pwn-calibre/__init__.py:210-213 | the scan of the sorted results finds no URL exactly when no record has a cached cover URL; otherwise it finds the URL of the first record that has one |
| Plugin.RanksByReordering | pwn-calibre/__init__.py:208 | definition: `list.sort` only reorders, so the host's ranking keeps every record as often as it occurs |
| Plugin.ReorderedLookup | pwn-calibre/__init__.py:208-213 | after a reordering some record has a cached cover URL exactly when one had before, and every record comes from the drained results |
| Plugin.Download | pwn-calibre/__init__.py:215-228 | definition of the end of `download_cover`: nothing without a URL or after an abort, otherwise one request whose image is queued unless the request fails |
| Plugin.CachedByIsbn | pwn-calibre/__init__.py:186-189 | definition: the cached cover URL of the raw ISBN, looked up only when the ISBN is truthy |
| Plugin.CoverSpec | pwn-calibre/__init__.py:183-228 | definition of one sequential `download_cover` call; characterised by `Plugin.CoverControlFlow` |
| Plugin.CoverControlFlow | pwn-calibre/__init__.py:183-228 | a cached URL for the raw ISBN is used without any search. Otherwise, with a ranking that only reorders, a URL is found exactly when some record of a fresh `identify` run has a cached cover URL, and it is that of the first such record in the host's order. An exception from `identify`, a failed search or a query it cannot encode, escapes. With a URL and no abort the queued images are exactly the page the site serves at it, if any; none after an abort or without a URL |
| Plugin.NoLookupNoCover | pwn-calibre/__init__.py:210-213 | when the host's lookup by identifiers never finds a URL, a call without a cached URL for the raw ISBN queues no image |
| Plugin.Tagged | pwn-calibre/__init__.py:226 | definition: the queued `(source, image)` pairs, one per image, in order |
| Plugin.Queue.constructor | pwn-calibre/__init__.py:194 | a new queue is empty |
| Plugin.Queue.Put | pwn-calibre/__init__.py:226 | `put` appends at the back |
| Plugin.Queue.GetNowait | pwn-calibre/__init__.py:204-205 | `get_nowait` removes and returns the oldest item, or signals `Empty` on an empty queue |
| Plugin.Drain | pwn-calibre/__init__.py:200-206 | the `get_nowait` loop collects everything that was on the queue, oldest first, and leaves it empty |
| Plugin.Worker.constructor | pwn-calibre/__init__.py:236-245 | the worker keeps its candidate URL, result queue, browser, relevance and plugin as given; the `timeout` of 20 seconds, the `daemon` flag, the log and `clone_browser` are left out |
| Plugin.Worker.Run | pwn-calibre/__init__.py:247-280 | one request for the candidate URL; the queue gains exactly `WorkerRecord` and the cache becomes `WorkerCache` |
| Plugin.Pwn.CacheIdentifierToCoverUrl | pwn-calibre/__init__.py:274 | the cover cache maps the given identifier, which may be `None`, to the URL, and is otherwise unchanged |
| Plugin.Pwn.Identify | pwn-calibre/__init__.py:133-165 | outcome, request log, result queue and cover cache are exactly those of `IdentifySpec` |
| Plugin.Pwn.SearchAndRun | pwn-calibre/__init__.py:140-165 | outcome, request log, result queue and cover cache after the query is built are exactly those of `SearchRun` |
| Plugin.Pwn.StartWorkers | pwn-calibre/__init__.py:149-163 | running the workers in order appends their requests to the log, and their records to the queue. It also applies their cache updates |
| Plugin.Pwn.SpawnWorkers | pwn-calibre/__init__.py:147 | one worker per candidate URL in order, all sharing the result queue, browser and plugin, with relevance 1 |
| Plugin.Pwn.FirstCachedCoverUrl | pwn-calibre/__init__.py:210-213 | the loop with its early `break` computes exactly `FirstCachedCover` |
| Plugin.Pwn.DownloadCover | pwn-calibre/__init__.py:183-228 | outcome, request log, queued `(source, image)` pairs and cover cache are exactly those of `CoverSpec` |
| Plugin.Pwn.PutCover | pwn-calibre/__init__.py:215-228 | the request log and the queue change exactly as `Download` says |

## Left out

- Threads: workers run one after another, to completion, as they are started. The polling loop with `join(0.2)`, `is_alive` and `time.sleep(0.1)` is not modelled, and neither are requests interleaving.
- The abort event is read as one value per call, so an abort that arrives while workers are running is not modelled.
- `clone_browser`: every worker uses the plugin's one browser, so all requests appear in one log.
- Timeouts are not modelled. `identify` passes its timeout to the search but not to the workers, which keep their own 20 seconds. `download_cover` does not pass its timeout to `identify`, only to the image request.
- Logging, the debugging output of `create_query`, and the UTF-8 `encode` of title, authors and publisher are not modelled.
- The percent-encoding done by `urlencode`: a search URL is modelled as its parameter map. Its `str()` of each key and value is modelled only as a check that the text is ASCII: query values are taken to be Unicode text, as the host's tokenizers give.
- Search.UrlFromSearch: its `UnicodeEncodeError` case assumes Python 2's stock ASCII default encoding, which `str()` of Unicode text uses. A host that sets a UTF-8 default encoding at start-up encodes every value, and there the search is always built; that configuration is not modelled.
- Decoding, cleaning and parsing a page with lxml, and the XPath queries, are host collaborators. A page is modelled as the results of its queries.
- `check_isbn`, the title and author tokenizers, `clean_downloaded_metadata` and the sort by `identify_results_keygen` are host functions whose insides are not modelled. The sort is only assumed to reorder, where a lemma says so.
- `get_cached_cover_url` is inherited from Calibre's `Source` class, which is not part of this model; the plugin does not override it. It is a host function here. If the inherited version never finds a URL, the fallback scan of `download_cover` never finds one either (`Plugin.NoLookupNoCover`), and covers come only from the ISBN cache.
- `cache_identifier_to_cover_url` and `cached_identifier_to_cover_url`, also inherited from `Source`, are modelled as a write and a read of one cover cache.
- Book.ParseInt: only ASCII digits and ASCII whitespace are modelled. Python's `int` also accepts other Unicode digits after the four ASCII digits, and other Unicode whitespace.
- The worker's `relevance` is stored but never used.
- Exceptions other than `IndexError`, `ValueError`, `OverflowError`, `UnicodeEncodeError` and a failed fetch are not modelled, for example a parser error.
