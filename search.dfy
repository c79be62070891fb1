/** The search side of the site: building search URLs and reading candidate
    detail-page URLs off a search results page (`PWNObject.url_from_search`
    and class `SearchResults`). */
module Search {
  import opened Wrappers
  import opened Web

  /** The site's origin, prefixed to every relative result link. */
  const BaseUrl: string := "https://ksiegarnia.pwn.pl"

  /** The search strategies the site's query parameters select. */
  datatype Strategy = ByEan | ByBookIdent | ByNameAndCreator

  /** The strategy a search URL uses, read off its query parameters. */
  function StrategyOf(url: Url): Option<Strategy> {
    match url
    case Address(_) => None
    case SearchUrl(params) =>
      if params.Keys == {"fa_ean"} then Some(ByEan)
      else if params.Keys == {"faa_bookIdent"} then Some(ByBookIdent)
      else if params.Keys == {"faa_name", "faa_creator"} then Some(ByNameAndCreator)
      else None
  }

  /** Text `str()` converts without error under Python 2's stock ASCII
      default codec: every character is ASCII. */
  predicate Ascii(s: string) {
    forall k :: 0 <= k < |s| ==> s[k] as int < 128
  }

  /** `url_from_search`: the search page for `params`. `urlencode` passes every
      key and value through `str()`, which refuses text outside ASCII. */
  function UrlFromSearch(params: map<string, string>): Result<Url> {
    if forall key | key in params :: Ascii(key) && Ascii(params[key]) then Ok(SearchUrl(params))
    else Err(UnicodeEncodeError)
  }

  /** `url_from_isbn13`. */
  function UrlFromIsbn13(isbn: string): Result<Url> {
    UrlFromSearch(map["fa_ean" := isbn])
  }

  /** `url_from_isbn10`. */
  function UrlFromIsbn10(isbn: string): Result<Url> {
    UrlFromSearch(map["faa_bookIdent" := isbn])
  }

  /** `' '.join(tokens)`. */
  function Join(tokens: seq<string>): string
    decreases |tokens|
  {
    if |tokens| == 0 then ""
    else if |tokens| == 1 then tokens[0]
    else tokens[0] + " " + Join(tokens[1..])
  }

  /** `s.split(' ')`: the pieces of `s` between single spaces (never empty). */
  function Split(s: string): (pieces: seq<string>)
    ensures |pieces| >= 1
    decreases |s|
  {
    if s == "" then [""]
    else if s[0] == ' ' then [""] + Split(s[1..])
    else
      var rest := Split(s[1..]);
      [[s[0]] + rest[0]] + rest[1..]
  }

  /** `url_from_title_and_author`: both token lists joined with single spaces. */
  function UrlFromTitleAndAuthor(titleTokens: seq<string>, authorTokens: seq<string>): Result<Url> {
    UrlFromSearch(map["faa_name" := Join(titleTokens), "faa_creator" := Join(authorTokens)])
  }

  /** A joined string is ASCII exactly when every token is. */
  lemma {:induction false} JoinAscii(tokens: seq<string>)
    ensures Ascii(Join(tokens)) <==> forall i :: 0 <= i < |tokens| ==> Ascii(tokens[i])
    decreases |tokens|
  {
    if |tokens| >= 2 {
      var rest := Join(tokens[1..]);
      JoinAscii(tokens[1..]);
      assert Join(tokens) == tokens[0] + " " + rest;
      if Ascii(Join(tokens)) {
        assert Ascii(tokens[0]) by {
          forall k | 0 <= k < |tokens[0]| ensures tokens[0][k] as int < 128 {
            assert Join(tokens)[k] == tokens[0][k];
          }
        }
        assert Ascii(rest) by {
          forall k | 0 <= k < |rest| ensures rest[k] as int < 128 {
            assert Join(tokens)[|tokens[0]| + 1 + k] == rest[k];
          }
        }
        forall i | 0 <= i < |tokens| ensures Ascii(tokens[i]) {
          if i > 0 {
            assert tokens[i] == tokens[1..][i - 1];
          }
        }
      }
      if forall i :: 0 <= i < |tokens| ==> Ascii(tokens[i]) {
        forall i | 0 <= i < |tokens| - 1 ensures Ascii(tokens[1..][i]) {
          assert tokens[1..][i] == tokens[i + 1];
        }
        assert Ascii(Join(tokens)) by {
          forall k | 0 <= k < |Join(tokens)| ensures Join(tokens)[k] as int < 128 {
            if k < |tokens[0]| {
              assert Join(tokens)[k] == tokens[0][k];
            } else if k > |tokens[0]| {
              assert Join(tokens)[k] == rest[k - |tokens[0]| - 1];
            }
          }
        }
      }
    }
  }

  /** Each builder succeeds exactly when its values are ASCII, and then yields
      a search URL of its own strategy; otherwise it raises `UnicodeEncodeError`. */
  lemma BuildersSelectStrategy(isbn: string, titleTokens: seq<string>, authorTokens: seq<string>)
    ensures UrlFromIsbn13(isbn).Ok? <==> Ascii(isbn)
    ensures UrlFromIsbn13(isbn).Ok? ==> StrategyOf(UrlFromIsbn13(isbn).value) == Some(ByEan)
    ensures UrlFromIsbn10(isbn).Ok? <==> Ascii(isbn)
    ensures UrlFromIsbn10(isbn).Ok? ==> StrategyOf(UrlFromIsbn10(isbn).value) == Some(ByBookIdent)
    ensures UrlFromTitleAndAuthor(titleTokens, authorTokens).Ok? <==>
      Ascii(Join(titleTokens)) && Ascii(Join(authorTokens))
    ensures UrlFromTitleAndAuthor(titleTokens, authorTokens).Ok? ==>
      StrategyOf(UrlFromTitleAndAuthor(titleTokens, authorTokens).value) == Some(ByNameAndCreator)
    ensures UrlFromIsbn13(isbn).Err? ==> UrlFromIsbn13(isbn).error == UnicodeEncodeError
    ensures UrlFromIsbn10(isbn).Err? ==> UrlFromIsbn10(isbn).error == UnicodeEncodeError
    ensures UrlFromTitleAndAuthor(titleTokens, authorTokens).Err? ==>
      UrlFromTitleAndAuthor(titleTokens, authorTokens).error == UnicodeEncodeError
  {
    var ean, ident, name, creator := "fa_ean", "faa_bookIdent", "faa_name", "faa_creator";
    assert Ascii(ean) && Ascii(ident) && Ascii(name) && Ascii(creator);
    assert map[ean := isbn].Keys == {"fa_ean"};
    assert map[ident := isbn].Keys == {"faa_bookIdent"};
    assert map[name := Join(titleTokens), creator := Join(authorTokens)].Keys == {"faa_name", "faa_creator"};
  }

  predicate NoSpace(t: string) {
    forall k :: 0 <= k < |t| ==> t[k] != ' '
  }

  lemma {:induction false} SplitAfterWord(t: string, s: string)
    requires NoSpace(t)
    ensures Split(t + s) == [t + Split(s)[0]] + Split(s)[1..]
    decreases |t|
  {
    if t == "" {
      assert t + s == s;
      assert t + Split(s)[0] == Split(s)[0];
    } else {
      assert (t + s)[0] == t[0] && (t + s)[1..] == t[1..] + s;
      SplitAfterWord(t[1..], s);
      var rest := Split(t[1..] + s);
      assert rest[0] == t[1..] + Split(s)[0] && rest[1..] == Split(s)[1..];
      assert [t[0]] + (t[1..] + Split(s)[0]) == t + Split(s)[0];
    }
  }

  /** The space-joined tokens of a search parameter split back into the tokens,
      as long as there is at least one token and none holds a space. */
  lemma {:induction false} SplitJoin(tokens: seq<string>)
    requires |tokens| >= 1
    requires forall i :: 0 <= i < |tokens| ==> NoSpace(tokens[i])
    ensures Split(Join(tokens)) == tokens
    decreases |tokens|
  {
    if |tokens| == 1 {
      SplitAfterWord(tokens[0], "");
      assert tokens[0] + "" == tokens[0];
    } else {
      var rest := Join(tokens[1..]);
      assert Join(tokens) == tokens[0] + (" " + rest);
      SplitAfterWord(tokens[0], " " + rest);
      assert (" " + rest)[0] == ' ' && (" " + rest)[1..] == rest;
      SplitJoin(tokens[1..]);
      assert Split(" " + rest) == [""] + tokens[1..];
      assert tokens[0] + "" == tokens[0];
      assert tokens == [tokens[0]] + tokens[1..];
    }
  }

  /** The candidate URLs of a search page whose result containers carry the
      given `a/@href` lists: the base origin plus each container's first link,
      or the `IndexError` of the first container that has none. */
  function Candidates(containers: seq<seq<string>>): Result<seq<string>>
    decreases |containers|
  {
    if containers == [] then Ok([])
    else
      match Candidates(containers[..|containers| - 1])
      case Err(e) => Err(e)
      case Ok(urls) =>
        var last := containers[|containers| - 1];
        if last == [] then Err(IndexError) else Ok(urls + [BaseUrl + last[0]])
  }

  /** Extraction succeeds exactly when every container has a link; it then
      keeps the containers' number and order, each URL being the base origin
      plus that container's first link. No containers yield no candidates. */
  lemma {:induction false} CandidatesSpec(containers: seq<seq<string>>)
    ensures Candidates(containers).Ok? <==> forall i :: 0 <= i < |containers| ==> containers[i] != []
    ensures Candidates(containers).Err? ==> Candidates(containers).error == IndexError
    ensures Candidates(containers).Ok? ==>
      var urls := Candidates(containers).value;
      |urls| == |containers| &&
      forall i :: 0 <= i < |urls| ==> urls[i] == BaseUrl + containers[i][0]
    ensures containers == [] ==> Candidates(containers) == Ok([])
    decreases |containers|
  {
    if containers != [] {
      var init := containers[..|containers| - 1];
      CandidatesSpec(init);
      assert forall i :: 0 <= i < |init| ==> init[i] == containers[i];
    }
  }

  /** The loop of `SearchResults.from_url` over the result containers of a
      fetched search page. */
  method ExtractCandidates(root: Document) returns (r: Result<seq<string>>)
    ensures r == Candidates(root.resultHrefs)
  {
    var bookUrls: seq<string> := [];
    var results := root.resultHrefs;
    var i := 0;
    while i < |results|
      invariant 0 <= i <= |results|
      invariant Candidates(results[..i]) == Ok(bookUrls)
    {
      assert results[..i + 1][..i] == results[..i];
      if results[i] == [] {
        CandidatesSpec(results);
        return Err(IndexError);
      }
      var url := BaseUrl + results[i][0];
      bookUrls := bookUrls + [url];
      i := i + 1;
    }
    assert results[..i] == results;
    r := Ok(bookUrls);
  }

  /** What `SearchResults.from_url` yields for `url` on a site serving `pages`. */
  function SearchResultsOf(parse: seq<byte> -> Document, pages: map<Url, seq<byte>>, url: Url): Result<seq<string>>
  {
    match Root(parse, pages, url)
    case Err(e) => Err(e)
    case Ok(root) => Candidates(root.resultHrefs)
  }

  /** `SearchResults.from_url`: fetch the search page and extract its candidates. */
  method FromUrl(parse: seq<byte> -> Document, browser: Browser, url: Url) returns (r: Result<seq<string>>)
    modifies browser
    ensures browser.requests == old(browser.requests) + [url]
    ensures r == SearchResultsOf(parse, browser.pages, url)
  {
    var root := RootFromUrl(parse, browser, url);
    if root.Err? {
      return Err(root.error);
    }
    r := ExtractCandidates(root.value);
  }
}
