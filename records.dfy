/** The host's metadata record and how a worker turns a page's dictionary
    into one (the body of `Worker.run`). */
module Records {
  import opened Wrappers
  import opened Book

  /** The host's `Metadata` record, with the fields the plugin sets. */
  datatype Metadata = Metadata(
    title: string,
    authors: seq<string>,
    identifiers: map<string, string>,
    pubdate: Option<Date>,
    rating: Option<string>,
    languages: seq<string>,
    publisher: Option<string>,
    hasCover: bool)

  /** `Metadata(title, authors)`: a record with nothing else set. */
  function NewMetadata(title: string, authors: seq<string>): Metadata {
    Metadata(title, authors, map[], None, None, [], None, false)
  }

  /** `book.get("ean") or book.get("isbn")`: the identifier of the record, under
      which its cover URL is also cached (possibly `None`). */
  function ChosenIdentifier(book: Properties): Option<string> {
    if Truthy(book.ean) then book.ean else book.isbn
  }

  /** A dictionary without a title or without authors, which the worker drops. */
  predicate Incomplete(book: Properties) {
    !Truthy(book.title) || book.authors.None? || book.authors.value == []
  }

  /** The record `Worker.run` builds from a page's dictionary, field by field,
      before the host cleans it up; `None` when the candidate is dropped. */
  function Normalise(book: Properties): (r: Option<Metadata>)
    ensures r.None? <==> !Truthy(book.title) || book.authors.None? || book.authors.value == []
    ensures r.Some? ==>
      var mi := r.value;
      && mi.title == book.title.value
      && mi.authors == book.authors.value
      && (Truthy(book.ean) ==> mi.identifiers == map["isbn" := book.ean.value])
      && (!Truthy(book.ean) && Truthy(book.isbn) ==> mi.identifiers == map["isbn" := book.isbn.value])
      && (!Truthy(book.ean) && !Truthy(book.isbn) ==> mi.identifiers == map[])
      && mi.pubdate == book.pubdate
      && mi.rating == book.rating
      && mi.languages == (if book.languages.Some? then book.languages.value else [])
      && mi.publisher == (if Truthy(book.publisher) then book.publisher else None)
      && (mi.hasCover <==> Truthy(book.coverUrl))
  {
    if Incomplete(book) then None
    else
      var mi := NewMetadata(book.title.value, book.authors.value);
      var isbn := ChosenIdentifier(book);
      var mi := if Truthy(isbn) then mi.(identifiers := mi.identifiers["isbn" := isbn.value]) else mi;
      var mi := if book.pubdate.Some? then mi.(pubdate := book.pubdate) else mi;
      var mi := if book.rating.Some? then mi.(rating := book.rating) else mi;
      var mi := if book.languages.Some? then mi.(languages := book.languages.value) else mi;
      var mi := if Truthy(book.publisher) then mi.(publisher := book.publisher) else mi;
      var mi := if Truthy(book.coverUrl) then mi.(hasCover := true) else mi;
      Some(mi)
  }
}
