/** The reading view's thematic search: the tolerant reading of the generative
    service's JSON answer, and the case-insensitive book lookup that navigates
    to a search result. */
module Search {
  import opened Types
  import opened JsStrings
  import opened Navigation

  /** An entry of the answer; the reader takes entries as they come. */
  datatype SearchResult = SearchResult(book: string, chapter: int, verse: int, text: string)

  /** The value `JSON.parse(response.text)` produced: a bare array, `null`, any
      other non-object value, or an object whose `verses` and `results` fields
      are lists (Some) or absent or falsy (None). */
  datatype Payload =
    | ResultArray(entries: seq<SearchResult>)
    | Null
    | Scalar
    | Object(verses: Option<seq<SearchResult>>, results: Option<seq<SearchResult>>)

  /** The generative request threw (network, service or `JSON.parse`), or it
      gave a parsed value. */
  datatype SearchReply = SearchFailed | Parsed(payload: Payload)

  /** `Array.isArray(raw) ? raw : (raw.verses || raw.results || [])`: the list
      to show, or None when the request or the property read on `null` threw,
      in which case the previous results stay. A list, even an empty one, is
      truthy, so a present `verses` wins over `results`. */
  function NormalizeSearch(reply: SearchReply): (r: Option<seq<SearchResult>>)
    ensures r.None? <==> reply.SearchFailed? || reply.payload.Null?
    ensures reply.Parsed? && reply.payload.ResultArray? ==> r == Some(reply.payload.entries)
    ensures reply.Parsed? && reply.payload.Scalar? ==> r == Some([])
    ensures reply.Parsed? && reply.payload.Object? ==>
              r == Some(if reply.payload.verses.Some? then reply.payload.verses.value
                        else if reply.payload.results.Some? then reply.payload.results.value
                        else [])
  {
    match reply
    case SearchFailed => None
    case Parsed(payload) =>
      match payload
      case ResultArray(entries) => Some(entries)
      case Null => None
      case Scalar => Some([])
      case Object(verses, results) =>
        Some(if verses.Some? then verses.value else if results.Some? then results.value else [])
  }

  /** Normalisation never invents an entry: every entry shown comes from one of
      the lists of the answer, in the same position. */
  lemma NormalizedEntriesComeFromAnswer(payload: Payload)
    requires NormalizeSearch(Parsed(payload)).Some?
    ensures var shown := NormalizeSearch(Parsed(payload)).value;
            shown == [] || (payload.ResultArray? && shown == payload.entries)
            || (payload.Object? && (Some(shown) == payload.verses || Some(shown) == payload.results))
  {
  }

  /** Lower-cased display names of the book table, in table order. */
  function LowerNames(books: seq<Book>): (r: seq<string>)
    ensures |r| == |books| && forall i :: 0 <= i < |books| ==> r[i] == Lower(books[i].name)
  {
    seq(|books|, i requires 0 <= i < |books| => Lower(books[i].name))
  }

  /** `BIBLE_BOOKS.find(b => b.name.toLowerCase() === name.toLowerCase())`,
      as the index of the book found. */
  function FindBook(books: seq<Book>, name: string): (r: Option<nat>)
    ensures r.Some? ==> r.value < |books| && Lower(books[r.value].name) == Lower(name)
    ensures r.Some? ==> forall j :: 0 <= j < r.value ==> Lower(books[j].name) != Lower(name)
    ensures r.None? <==> forall j :: 0 <= j < |books| ==> Lower(books[j].name) != Lower(name)
  {
    var i := FirstIndexOf(LowerNames(books), Lower(name));
    if i < 0 then None
    else Some(i)
  }

  /** The lookup sees only the lower-cased name: any spelling of a name that
      differs in the case of its letters finds the same book. */
  lemma FindBookIgnoresCase(books: seq<Book>, name: string)
    ensures FindBook(books, Lower(name)) == FindBook(books, name)
  {
    LowerIdempotent(name);
  }

  /** The lookup ignores case: two spellings that differ only in the case of
      their letters find the same book. */
  lemma FindBookSameUpToCase(books: seq<Book>, q: string, n: string)
    requires SameUpToCase(q, n)
    ensures FindBook(books, q) == FindBook(books, n)
  {
    LowerEqualIffSameUpToCase(q, n);
  }

  /** Every book of the table is found under its own display name, at its own
      index when no other book's name differs from it only in case. */
  lemma FindBookFindsTableBook(books: seq<Book>, i: nat)
    requires i < |books|
    requires forall j :: 0 <= j < |books| && j != i ==> Lower(books[j].name) != Lower(books[i].name)
    ensures FindBook(books, books[i].name) == Some(i)
  {
  }
}
