/** Pages of ksiegarnia.pwn.pl as the plugin sees them, and the browser that fetches them.

    A fetched page is parsed by the host's permissive HTML parser into a `Document`;
    the document is represented by the results of the XPath queries the plugin
    evaluates on it, so that the extraction logic works on plain data. */
module Web {
  import opened Wrappers

  newtype byte = x: int | 0 <= x < 256

  /** A URL the browser can open: the search page for a set of query parameters
      (`SEARCH_URL % urlencode(params)`), or an absolute address. */
  datatype Url = SearchUrl(params: map<string, string>) | Address(text: string)

  /** One `li` of `//div[@class="emp-product-description"]/ul`. */
  datatype DescriptionEntry = DescriptionEntry(
    h3Keys: seq<string>,        // h3/span[@class="key"]/text()
    h2Keys: seq<string>,        // h2/span[@class="key"]/text()
    h3Values: seq<string>,      // h3/span[@class="value"]/text()
    h3ValueLinks: seq<string>,  // h3/span[@class="value"]/a/text()
    h2ValueLinks: seq<string>)  // h2/span[@class="value"]/a/text()

  /** One `li` of `//div[@id="details"]/ul[@class="head"]`. */
  datatype IdentifierEntry = IdentifierEntry(
    labels: seq<string>,        // span[contains(@class, "text")]/text()
    values: seq<string>)        // span[@class="wartosc"]/text()

  /** A parsed page, given by the results of the plugin's XPath queries on it. */
  datatype Document = Document(
    resultHrefs: seq<seq<string>>,       // a/@href of each //div[@class="emp-info-container"]
    ratings: seq<string>,                // //span[@itemprop="rating"]/text()
    titles: seq<string>,                 // //h1[@itemprop="name"]/span[@class="name"]/text()
    coverHrefs: seq<string>,             // //div[@id="product-cover"]/div/a/@href
    description: seq<DescriptionEntry>,
    identifiers: seq<IdentifierEntry>)

  /** What opening `url` yields when the site serves `pages`. */
  function Open(pages: map<Url, seq<byte>>, url: Url): (r: Result<seq<byte>>)
    ensures r.Ok? <==> url in pages
    ensures r.Ok? ==> r.value == pages[url]
    ensures r.Err? ==> r.error == FetchError
  {
    if url in pages then Ok(pages[url]) else Err(FetchError)
  }

  /** What `root_from_url` yields: the parsed page, or the fetch failure. */
  function Root(parse: seq<byte> -> Document, pages: map<Url, seq<byte>>, url: Url): Result<Document>
  {
    match Open(pages, url)
    case Err(e) => Err(e)
    case Ok(raw) => Ok(parse(raw))
  }

  /** The host's browser: the site it talks to, and the log of the requests it made. */
  class Browser {
    const pages: map<Url, seq<byte>>
    var requests: seq<Url>

    constructor (pages: map<Url, seq<byte>>)
      ensures this.pages == pages && requests == []
    {
      this.pages := pages;
      requests := [];
    }

    /** `open_novisit(url).read()`: one request, answered from the site. */
    method OpenNovisit(url: Url) returns (r: Result<seq<byte>>)
      modifies this
      ensures requests == old(requests) + [url]
      ensures r == Open(pages, url)
    {
      requests := requests + [url];
      r := if url in pages then Ok(pages[url]) else Err(FetchError);
    }
  }

  /** `PWNObject.root_from_url`: fetch a page and parse it. */
  method RootFromUrl(parse: seq<byte> -> Document, browser: Browser, url: Url) returns (r: Result<Document>)
    modifies browser
    ensures browser.requests == old(browser.requests) + [url]
    ensures r == Root(parse, browser.pages, url)
  {
    var raw := browser.OpenNovisit(url);
    if raw.Err? {
      return Err(raw.error);
    }
    r := Ok(parse(raw.value));
  }
}
