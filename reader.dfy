/** The reading view: the chapter on screen, the chapter cache keyed by
    "<book>-<chapter>", loading with a speculative fetch of the next chapter,
    chapter navigation, thematic search and verse narration. Every network
    answer is a parameter of the operation that waits for it; operations run
    one after the other. */
module ReaderView {
  import opened Types
  import opened JsStrings
  import opened Navigation
  import opened ChapterFetch
  import opened Search

  /** The message shown when a chapter cannot be loaded. */
  const LoadError := "Não conseguimos conectar à biblioteca sagrada."

  type Cache = map<string, seq<Verse>>

  /** What the view renders: the loading indicator, the error with its retry
      button, or the verses. */
  datatype Screen = Loading | Failed(message: string) | Chapter(verses: seq<Verse>)

  /** `after` keeps every entry of `before`, with the same verses. */
  ghost predicate Extends(before: Cache, after: Cache) {
    forall k :: k in before ==> k in after && after[k] == before[k]
  }

  /** The key `prefetchNext` fetches from position (`bookIndex`, `chap`): the
      chapter that follows, unless the corpus ends there or it is cached. */
  function PrefetchTarget(books: seq<Book>, cache: Cache, bookIndex: nat, chap: int): (r: Option<string>)
    requires BookTable(books) && bookIndex < |books|
    ensures r.Some? ==> r.value !in cache
    ensures bookIndex == |books| - 1 && chap >= books[bookIndex].chapters ==> r.None?
    ensures chap + 1 <= books[bookIndex].chapters && ChapterKey(books[bookIndex].name, chap + 1) !in cache
            ==> r == Some(ChapterKey(books[bookIndex].name, chap + 1))
    ensures chap + 1 > books[bookIndex].chapters && bookIndex + 1 < |books| && ChapterKey(books[bookIndex + 1].name, 1) !in cache
            ==> r == Some(ChapterKey(books[bookIndex + 1].name, 1))
    // a next chapter that is already cached is not fetched again
    ensures chap + 1 <= books[bookIndex].chapters && ChapterKey(books[bookIndex].name, chap + 1) in cache ==> r.None?
    ensures chap + 1 > books[bookIndex].chapters && bookIndex + 1 < |books| && ChapterKey(books[bookIndex + 1].name, 1) in cache
            ==> r.None?
  {
    match NextPosition(books, bookIndex, chap)
    case None => None
    case Some(p) =>
      var key := ChapterKey(books[p.book].name, p.chapter);
      if key in cache then None else Some(key)
  }

  /** The requests a prefetch towards `target` issues. */
  function Requested(target: Option<string>): seq<string> {
    if target.Some? then [target.value] else []
  }

  /** The cache after a prefetch towards `target` that fetched `fetched`:
      exactly one new entry when there was a target and data, else no change. */
  function Prefetched(cache: Cache, target: Option<string>, fetched: Option<seq<Verse>>): (r: Cache)
    requires target.Some? ==> target.value !in cache
    ensures Extends(cache, r)
    ensures r.Keys == cache.Keys + (if target.Some? && fetched.Some? then {target.value} else {})
    ensures target.Some? && fetched.Some? ==> r[target.value] == fetched.value
  {
    if target.Some? && fetched.Some? then cache[target.value := fetched.value] else cache
  }

  class Reader {
    /** The fixed book table. */
    const books: seq<Book>
    var currentBook: Book
    var currentChapter: int
    var verses: seq<Verse>
    var isLoading: bool
    var error: Option<string>
    var cache: Cache
    var isPickerOpen: bool
    var isSearchOpen: bool
    var searchQuery: string
    var searchResults: seq<SearchResult>
    var isSearching: bool
    var isSpeaking: Option<int>
    /** The cache key of every chapter request issued, in order. */
    ghost var fetchLog: seq<string>
    /** Every query sent to the generative service, in order. */
    ghost var searchLog: seq<string>

    ghost predicate Valid()
      reads this
    {
      BookTable(books) && currentBook in books
    }

    function CurrentKey(): string
      reads this
    {
      ChapterKey(currentBook.name, currentChapter)
    }

    /** `BIBLE_BOOKS.findIndex(b => b.name === currentBook.name)`. */
    function CurrentIndex(): (i: nat)
      requires Valid()
      reads this
      ensures i < |books| && books[i] == currentBook
    {
      IndexOfTableBook(books, currentBook);
      FirstIndexOf(Names(books), currentBook.name)
    }

    /** The render's choice: the loading indicator wins, then the error,
        and the verses are shown only when neither is up. */
    function CurrentScreen(): (r: Screen)
      reads this
      ensures r == Loading <==> isLoading
      ensures r.Failed? <==> !isLoading && error.Some?
      ensures r.Failed? ==> r.message == error.value
      ensures r.Chapter? <==> !isLoading && error.None?
      ensures r.Chapter? ==> r.verses == verses
    {
      if isLoading then Loading else if error.Some? then Failed(error.value) else Chapter(verses)
    }

    predicate ChapterInRange()
      reads this
    {
      1 <= currentChapter <= currentBook.chapters
    }

    constructor (books: seq<Book>)
      requires BookTable(books)
      ensures Valid() && this.books == books
      ensures currentBook == books[0] && currentChapter == 1 && ChapterInRange()
      ensures verses == [] && !isLoading && error == None && cache == map[]
      ensures !isPickerOpen && !isSearchOpen && searchQuery == "" && searchResults == [] && !isSearching
      ensures isSpeaking == None && fetchLog == [] && searchLog == []
    {
      this.books := books;
      currentBook, currentChapter := books[0], 1;
      verses, isLoading, error, cache := [], false, None, map[];
      isPickerOpen, isSearchOpen, searchQuery, searchResults, isSearching := false, false, "", [], false;
      isSpeaking := None;
      fetchLog, searchLog := [], [];
    }

    /** `prefetchNext`: fetch the chapter after (`bookIndex`, `chap`) into the
        cache unless the corpus ends there or the chapter is cached already. */
    method PrefetchNext(bookIndex: nat, chap: int, primary: HttpOutcome, fallback: HttpOutcome, reply: TranslationReply)
      requires Valid() && bookIndex < |books|
      modifies this`cache, this`fetchLog
      ensures Valid()
      ensures var target := PrefetchTarget(books, old(cache), bookIndex, chap);
              && fetchLog == old(fetchLog) + Requested(target)
              && cache == Prefetched(old(cache), target, FetchChapterData(primary, fallback, reply))
    {
      var nextBook := books[bookIndex];
      var nextChap := chap + 1;
      if nextChap > nextBook.chapters {
        if bookIndex + 1 < |books| {
          nextBook := books[bookIndex + 1];
          nextChap := 1;
        } else {
          return;
        }
      }
      var key := ChapterKey(nextBook.name, nextChap);
      if key in cache {
        return;
      }
      fetchLog := fetchLog + [key];
      var data := FetchChapterData(primary, fallback, reply);
      if data.Some? {
        cache := cache[key := data.value];
      }
    }

    /** The cache-miss half of `loadCurrentChapter`: show the loading
        indicator, fetch, then show and cache the data and prefetch the next
        chapter, or show the error and leave cache and verses alone. */
    method FetchCurrentChapter(primary: HttpOutcome, fallback: HttpOutcome, reply: TranslationReply,
                               nextPrimary: HttpOutcome, nextFallback: HttpOutcome, nextReply: TranslationReply)
      requires Valid() && CurrentKey() !in cache
      modifies this`verses, this`isLoading, this`error, this`cache, this`fetchLog
      ensures Valid() && !isLoading
      ensures var data := FetchChapterData(primary, fallback, reply);
              && (data.Some? ==>
                    var filled := old(cache)[CurrentKey() := data.value];
                    var target := PrefetchTarget(books, filled, CurrentIndex(), currentChapter);
                    && verses == data.value && error == None
                    && fetchLog == old(fetchLog) + [CurrentKey()] + Requested(target)
                    && cache == Prefetched(filled, target, FetchChapterData(nextPrimary, nextFallback, nextReply)))
              && (data.None? ==>
                    && verses == old(verses) && error == Some(LoadError)
                    && cache == old(cache) && fetchLog == old(fetchLog) + [CurrentKey()])
    {
      var key := ChapterKey(currentBook.name, currentChapter);
      isLoading := true;
      error := None;
      fetchLog := fetchLog + [key];
      var data := FetchChapterData(primary, fallback, reply);
      if data.Some? {
        verses := data.value;
        cache := cache[key := data.value];
        var bookIdx := CurrentIndex();
        PrefetchNext(bookIdx, currentChapter, nextPrimary, nextFallback, nextReply);
      } else {
        error := Some(LoadError);
      }
      isLoading := false;
    }

    /** `loadCurrentChapter` as the source has it: a cache hit shows the cached
        verses and prefetches, but leaves `error` as it was. */
    method LoadCurrentChapterAsWritten(primary: HttpOutcome, fallback: HttpOutcome, reply: TranslationReply,
                                       nextPrimary: HttpOutcome, nextFallback: HttpOutcome, nextReply: TranslationReply)
      requires Valid()
      modifies this`verses, this`isLoading, this`error, this`cache, this`fetchLog
      ensures Valid() && !isLoading && Extends(old(cache), cache)
      ensures old(CurrentKey() in cache) ==>
                var target := PrefetchTarget(books, old(cache), CurrentIndex(), currentChapter);
                && verses == old(cache[CurrentKey()]) && error == old(error)
                && fetchLog == old(fetchLog) + Requested(target)
                && cache == Prefetched(old(cache), target, FetchChapterData(nextPrimary, nextFallback, nextReply))
      ensures old(CurrentKey() !in cache) ==>
                var data := FetchChapterData(primary, fallback, reply);
                && (data.Some? ==>
                      var filled := old(cache)[CurrentKey() := data.value];
                      var target := PrefetchTarget(books, filled, CurrentIndex(), currentChapter);
                      && verses == data.value && error == None
                      && fetchLog == old(fetchLog) + [CurrentKey()] + Requested(target)
                      && cache == Prefetched(filled, target, FetchChapterData(nextPrimary, nextFallback, nextReply)))
                && (data.None? ==>
                      && verses == old(verses) && error == Some(LoadError)
                      && cache == old(cache) && fetchLog == old(fetchLog) + [CurrentKey()])
    {
      var key := ChapterKey(currentBook.name, currentChapter);
      if key in cache {
        verses := cache[key];
        isLoading := false;
        var bookIdx := CurrentIndex();
        PrefetchNext(bookIdx, currentChapter, nextPrimary, nextFallback, nextReply);
        return;
      }
      FetchCurrentChapter(primary, fallback, reply, nextPrimary, nextFallback, nextReply);
    }

    /** `loadCurrentChapter` with the cache hit clearing a stale error: a cached
        chapter is shown without requesting it again; a missing one is fetched
        and cached, or the error is shown. The cache only grows. */
    method LoadCurrentChapter(primary: HttpOutcome, fallback: HttpOutcome, reply: TranslationReply,
                              nextPrimary: HttpOutcome, nextFallback: HttpOutcome, nextReply: TranslationReply)
      requires Valid()
      modifies this`verses, this`isLoading, this`error, this`cache, this`fetchLog
      ensures Valid() && !isLoading && Extends(old(cache), cache)
      ensures |fetchLog| >= |old(fetchLog)|
      // a hit shows the cached chapter and never requests it again
      ensures old(CurrentKey() in cache) ==>
                var target := PrefetchTarget(books, old(cache), CurrentIndex(), currentChapter);
                && verses == old(cache[CurrentKey()]) && error == None
                && fetchLog == old(fetchLog) + Requested(target)
                && cache == Prefetched(old(cache), target, FetchChapterData(nextPrimary, nextFallback, nextReply))
      ensures old(CurrentKey() in cache) ==> CurrentKey() !in fetchLog[|old(fetchLog)|..]
      // a miss requests the chapter, then shows and caches it, or shows the error
      ensures old(CurrentKey() !in cache) ==>
                var data := FetchChapterData(primary, fallback, reply);
                && (data.Some? ==>
                      var filled := old(cache)[CurrentKey() := data.value];
                      var target := PrefetchTarget(books, filled, CurrentIndex(), currentChapter);
                      && verses == data.value && error == None
                      && fetchLog == old(fetchLog) + [CurrentKey()] + Requested(target)
                      && cache == Prefetched(filled, target, FetchChapterData(nextPrimary, nextFallback, nextReply)))
                && (data.None? ==>
                      && verses == old(verses) && error == Some(LoadError)
                      && cache == old(cache) && fetchLog == old(fetchLog) + [CurrentKey()])
      // whenever the chapter is available, it is what the view shows
      ensures old(CurrentKey() in cache) || FetchChapterData(primary, fallback, reply).Some? ==>
                CurrentKey() in cache && CurrentScreen() == Chapter(cache[CurrentKey()])
      ensures old(CurrentKey() !in cache) && FetchChapterData(primary, fallback, reply).None? ==>
                CurrentScreen() == Failed(LoadError)
    {
      var key := ChapterKey(currentBook.name, currentChapter);
      if key in cache {
        verses := cache[key];
        isLoading := false;
        error := None;
        var bookIdx := CurrentIndex();
        PrefetchNext(bookIdx, currentChapter, nextPrimary, nextFallback, nextReply);
        return;
      }
      FetchCurrentChapter(primary, fallback, reply, nextPrimary, nextFallback, nextReply);
    }

    /** The "previous chapter" button, disabled at chapter 1 or below. */
    method PreviousChapter()
      requires Valid()
      modifies this`currentChapter
      ensures Valid()
      ensures currentChapter == if old(currentChapter) <= 1 then old(currentChapter) else old(currentChapter) - 1
      ensures old(ChapterInRange()) ==> ChapterInRange()
    {
      if currentChapter > 1 {
        currentChapter := currentChapter - 1;
      }
    }

    /** The "next chapter" button, disabled at the book's last chapter or beyond. */
    method NextChapter()
      requires Valid()
      modifies this`currentChapter
      ensures Valid()
      ensures currentChapter == if old(currentChapter) >= currentBook.chapters then old(currentChapter) else old(currentChapter) + 1
      ensures old(ChapterInRange()) ==> ChapterInRange()
    {
      if currentChapter < currentBook.chapters {
        currentChapter := currentChapter + 1;
      }
    }

    /** Choosing a book in the picker opens its first chapter. */
    method PickBook(i: nat)
      requires Valid() && i < |books|
      modifies this`currentBook, this`currentChapter, this`isPickerOpen
      ensures Valid() && currentBook == books[i] && currentChapter == 1 && ChapterInRange() && !isPickerOpen
    {
      currentBook, currentChapter := books[i], 1;
      isPickerOpen := false;
    }

    /** Typing in the search field. */
    method EditQuery(query: string)
      modifies this`searchQuery
      ensures searchQuery == query
    {
      searchQuery := query;
    }

    /** `handleSearch`: a blank query does nothing; otherwise the query goes to
        the generative service and its normalised answer replaces the results,
        unless the request or its reading threw. */
    method HandleSearch(reply: SearchReply)
      modifies this`searchResults, this`isSearching, this`searchLog
      ensures IsBlank(searchQuery) ==>
                searchResults == old(searchResults) && isSearching == old(isSearching) && searchLog == old(searchLog)
      ensures !IsBlank(searchQuery) ==>
                && searchLog == old(searchLog) + [searchQuery] && !isSearching
                && searchResults == match NormalizeSearch(reply) case Some(found) => found case None => old(searchResults)
    {
      if IsBlank(searchQuery) {
        return;
      }
      isSearching := true;
      searchLog := searchLog + [searchQuery];
      var found := NormalizeSearch(reply);
      if found.Some? {
        searchResults := found.value;
      }
      isSearching := false;
    }

    /** `goToVerse`: open the chapter of the first book whose name matches
        `bookName` ignoring case, and close the search; with no such book,
        nothing changes. */
    method GoToVerse(bookName: string, chapter: int)
      requires Valid()
      modifies this`currentBook, this`currentChapter, this`isSearchOpen, this`searchQuery, this`searchResults
      ensures Valid()
      ensures FindBook(books, bookName).None? ==>
                && currentBook == old(currentBook) && currentChapter == old(currentChapter)
                && isSearchOpen == old(isSearchOpen) && searchQuery == old(searchQuery) && searchResults == old(searchResults)
      ensures FindBook(books, bookName).Some? ==>
                && currentBook == books[FindBook(books, bookName).value]
                && Lower(currentBook.name) == Lower(bookName) && currentChapter == chapter
                && !isSearchOpen && searchQuery == "" && searchResults == []
    {
      var found := FindBook(books, bookName);
      if found.Some? {
        currentBook := books[found.value];
        currentChapter := chapter;
        isSearchOpen := false;
        searchQuery := "";
        searchResults := [];
      }
    }

    /** The synchronous part of `handleSpeak`: only a repeat of the verse being
        narrated is refused; another verse starts while one is playing. */
    method StartSpeaking(verse: int) returns (started: bool)
      modifies this`isSpeaking
      ensures started <==> old(isSpeaking) != Some(verse)
      ensures isSpeaking == if started then Some(verse) else old(isSpeaking)
    {
      if isSpeaking == Some(verse) {
        return false;
      }
      isSpeaking := Some(verse);
      return true;
    }

    /** The end of `handleSpeak`, once the narration finished. */
    method FinishSpeaking()
      modifies this`isSpeaking
      ensures isSpeaking == None
    {
      isSpeaking := None;
    }
  }

  /** With the source's `loadCurrentChapter`, a failed load followed by a return
      to a cached chapter keeps showing the error instead of the chapter. */
  method StaleErrorHidesCachedChapter() returns (screen: Screen)
    ensures screen == Failed(LoadError)
  {
    var reader := new Reader([Book("Jo", "John", 21)]);
    var first := [Verse("JHN", "John", 1, 1, "No princípio era o Verbo.")];
    var down := TransportError;
    assert IntToString(1) == "1" && IntToString(2) == "2";
    // chapter 1 loads and is cached; the prefetch of chapter 2 fails
    assert reader.CurrentKey() == "Jo-1";
    assert FetchChapterData(Response(true, Verses(first)), down, TranslationFailed) == Some(first);
    assert FetchChapterData(down, down, TranslationFailed) == None;
    reader.LoadCurrentChapterAsWritten(Response(true, Verses(first)), down, TranslationFailed, down, down, TranslationFailed);
    assert reader.cache == map["Jo-1" := first] && reader.error == None;
    // chapter 2 fails to load: the error is shown
    reader.NextChapter();
    assert reader.CurrentKey() == "Jo-2" && "Jo-2" !in reader.cache;
    reader.LoadCurrentChapterAsWritten(down, down, TranslationFailed, down, down, TranslationFailed);
    assert reader.cache == map["Jo-1" := first] && reader.error == Some(LoadError);
    // back to chapter 1, a cache hit: the error stays
    reader.PreviousChapter();
    assert reader.CurrentKey() == "Jo-1" && "Jo-1" in reader.cache;
    reader.LoadCurrentChapterAsWritten(down, down, TranslationFailed, down, down, TranslationFailed);
    screen := reader.CurrentScreen();
  }

  /** The same steps with the corrected load show the cached chapter. */
  method CachedChapterShownAfterFailedLoad() returns (screen: Screen)
    ensures screen == Chapter([Verse("JHN", "John", 1, 1, "No princípio era o Verbo.")])
  {
    var reader := new Reader([Book("Jo", "John", 21)]);
    var first := [Verse("JHN", "John", 1, 1, "No princípio era o Verbo.")];
    var down := TransportError;
    assert IntToString(1) == "1" && IntToString(2) == "2";
    assert reader.CurrentKey() == "Jo-1";
    assert FetchChapterData(Response(true, Verses(first)), down, TranslationFailed) == Some(first);
    assert FetchChapterData(down, down, TranslationFailed) == None;
    reader.LoadCurrentChapter(Response(true, Verses(first)), down, TranslationFailed, down, down, TranslationFailed);
    assert reader.cache == map["Jo-1" := first];
    reader.NextChapter();
    assert reader.CurrentKey() == "Jo-2" && "Jo-2" !in reader.cache;
    reader.LoadCurrentChapter(down, down, TranslationFailed, down, down, TranslationFailed);
    assert reader.cache == map["Jo-1" := first] && reader.error == Some(LoadError);
    reader.PreviousChapter();
    assert reader.CurrentKey() == "Jo-1" && "Jo-1" in reader.cache;
    reader.LoadCurrentChapter(down, down, TranslationFailed, down, down, TranslationFailed);
    screen := reader.CurrentScreen();
  }
}
