/** Positions in the fixed book table: the step to the chapter that follows
    (the one the reader prefetches), the string cache key of a chapter, and the
    name lookups the reader does in the table. */
module Navigation {
  import opened Types
  import opened JsStrings

  /** A chapter position: an index into the book table and a chapter number. */
  datatype Position = Position(book: nat, chapter: int)

  predicate ValidPosition(books: seq<Book>, p: Position) {
    p.book < |books| && 1 <= p.chapter <= books[p.book].chapters
  }

  /** The chapter after `chap` of book `bookIndex`: the next chapter of the same
      book, else chapter 1 of the next book, else nothing (end of the corpus). */
  function NextPosition(books: seq<Book>, bookIndex: nat, chap: int): (r: Option<Position>)
    requires bookIndex < |books|
    requires BookTable(books)
    ensures r.None? <==> bookIndex == |books| - 1 && chap >= books[bookIndex].chapters
    ensures chap >= 0 && r.Some? ==> ValidPosition(books, r.value)
    ensures r.Some? ==> r.value.book == bookIndex || (r.value.book == bookIndex + 1 && r.value.chapter == 1)
  {
    if chap + 1 <= books[bookIndex].chapters then Some(Position(bookIndex, chap + 1))
    else if bookIndex + 1 < |books| then Some(Position(bookIndex + 1, 1))
    else None
  }

  /** Number of chapters in the books before index `b`. */
  function ChaptersBefore(books: seq<Book>, b: nat): int
    requires b <= |books|
  {
    if b == 0 then 0 else ChaptersBefore(books, b - 1) + books[b - 1].chapters
  }

  function TotalChapters(books: seq<Book>): int {
    ChaptersBefore(books, |books|)
  }

  /** Rank of a position in reading order, from 0. */
  function Ordinal(books: seq<Book>, p: Position): int
    requires p.book < |books|
  {
    ChaptersBefore(books, p.book) + p.chapter - 1
  }

  lemma {:induction false} ChaptersBeforeGrows(books: seq<Book>, a: nat, b: nat)
    requires BookTable(books) && a <= b <= |books|
    ensures ChaptersBefore(books, a) + (b - a) <= ChaptersBefore(books, b)
  {
    if a < b {
      ChaptersBeforeGrows(books, a, b - 1);
    }
  }

  /** Reading order numbers every chapter of the corpus once, from 0 to the
      total number of chapters minus one. */
  lemma OrdinalBounds(books: seq<Book>, p: Position, q: Position)
    requires BookTable(books) && ValidPosition(books, p) && ValidPosition(books, q)
    ensures 0 <= Ordinal(books, p) < TotalChapters(books)
    ensures Ordinal(books, p) == Ordinal(books, q) ==> p == q
  {
    ChaptersBeforeGrows(books, 0, p.book);
    ChaptersBeforeGrows(books, p.book + 1, |books|);
    if p.book < q.book {
      ChaptersBeforeGrows(books, p.book + 1, q.book);
    } else if q.book < p.book {
      ChaptersBeforeGrows(books, q.book + 1, p.book);
    }
  }

  /** From any chapter of the corpus, the prefetch step goes to the chapter that
      comes right after it in reading order; it stops exactly at the last one. */
  lemma NextPositionIsSuccessor(books: seq<Book>, p: Position)
    requires BookTable(books) && ValidPosition(books, p)
    ensures NextPosition(books, p.book, p.chapter).None? <==> Ordinal(books, p) == TotalChapters(books) - 1
    ensures NextPosition(books, p.book, p.chapter).Some? ==>
              var q := NextPosition(books, p.book, p.chapter).value;
              ValidPosition(books, q) && Ordinal(books, q) == Ordinal(books, p) + 1
  {
    var last := Position(|books| - 1, books[|books| - 1].chapters);
    OrdinalBounds(books, p, last);
    match NextPosition(books, p.book, p.chapter)
    case None =>
    case Some(q) =>
      OrdinalBounds(books, q, last);
  }

  /** The cache key `${name}-${chapter}`. */
  function ChapterKey(name: string, chapter: int): string {
    name + "-" + IntToString(chapter)
  }

  /** A key is the book's name, a '-', then the chapter's decimal digits, with
      a second '-' in front of them for a negative chapter. */
  lemma ChapterKeyShape(name: string, chapter: int)
    ensures var r := ChapterKey(name, chapter);
            && |r| > |name| + 1 && r[..|name|] == name && r[|name|] == '-'
            && r[|name| + 1..] == IntToString(chapter)
            && (chapter >= 0 ==> IsDigits(r[|name| + 1..]))
            && (chapter < 0 ==> r[|name| + 1] == '-' && IsDigits(r[|name| + 2..]))
  {
    var d := IntToString(chapter);
    if chapter >= 0 {
      NatToStringIsDigits(chapter);
    } else {
      NatToStringIsDigits(-chapter);
      assert d[1..] == NatToString(-chapter);
    }
    Joined(name, d);
  }

  /** `a + "-" + b` splits back into `a`, the '-' and `b`. */
  lemma Joined(a: string, b: string)
    ensures var r := a + "-" + b;
            && |r| == |a| + 1 + |b| && r[..|a|] == a && r[|a|] == '-' && r[|a| + 1..] == b
            && (|b| > 0 ==> r[|a| + 1] == b[0] && r[|a| + 2..] == b[1..])
  {
  }

  /** Two chapters with non-negative numbers share a cache key only when they
      are the same chapter of the same book: the key's last '-' is the separator. */
  lemma ChapterKeyInjective(a: string, m: nat, b: string, n: nat)
    requires ChapterKey(a, m) == ChapterKey(b, n)
    ensures a == b && m == n
  {
    var s, t := NatToString(m), NatToString(n);
    var x := ChapterKey(a, m);
    assert x == a + "-" + s && x == b + "-" + t;
    NatToStringIsDigits(m);
    NatToStringIsDigits(n);
    // both separators sit at the position of the last '-' of the key
    assert x[|a|] == '-' && x[|b|] == '-';
    assert |a| == |b|;
    assert a == x[..|a|] && b == x[..|b|];
    assert s == x[|a| + 1..] && t == x[|b| + 1..];
    NatToStringInjective(m, n);
  }

  /** The prefetch step never targets the key of the chapter it starts from. */
  lemma NextKeyDiffers(books: seq<Book>, bookIndex: nat, chap: int)
    requires BookTable(books) && bookIndex < |books|
    requires NextPosition(books, bookIndex, chap).Some?
    ensures var q := NextPosition(books, bookIndex, chap).value;
            ChapterKey(books[q.book].name, q.chapter) != ChapterKey(books[bookIndex].name, chap)
  {
    var q := NextPosition(books, bookIndex, chap).value;
    var name := books[bookIndex].name;
    if q.book == bookIndex {
      // same book: the keys differ in the rendering of chap + 1 and chap
      if ChapterKey(name, q.chapter) == ChapterKey(name, chap) {
        assert IntToString(q.chapter) == ChapterKey(name, q.chapter)[|name| + 1..];
        assert IntToString(chap) == ChapterKey(name, chap)[|name| + 1..];
        IntToStringInjective(q.chapter, chap);
      }
    } else {
      // next book: reached only past the last chapter, so chap >= 1
      if ChapterKey(books[q.book].name, q.chapter) == ChapterKey(name, chap) {
        ChapterKeyInjective(books[q.book].name, q.chapter, name, chap);
      }
    }
  }

  /** `Array.prototype.findIndex` with an equality test: the first index
      holding `x`, or -1. */
  function FirstIndexOf(xs: seq<string>, x: string): (r: int)
    ensures -1 <= r < |xs|
    ensures r >= 0 ==> xs[r] == x && forall j :: 0 <= j < r ==> xs[j] != x
    ensures r == -1 <==> forall j :: 0 <= j < |xs| ==> xs[j] != x
  {
    if xs == [] then -1
    else if xs[0] == x then 0
    else
      var k := FirstIndexOf(xs[1..], x);
      if k < 0 then -1 else k + 1
  }

  function Names(books: seq<Book>): (r: seq<string>)
    ensures |r| == |books| && forall i :: 0 <= i < |books| ==> r[i] == books[i].name
  {
    seq(|books|, i requires 0 <= i < |books| => books[i].name)
  }

  /** `BIBLE_BOOKS.findIndex(b => b.name === book.name)` for a book of the
      table finds that very book, since display names are unique. */
  lemma IndexOfTableBook(books: seq<Book>, book: Book)
    requires BookTable(books) && book in books
    ensures var i := FirstIndexOf(Names(books), book.name);
            0 <= i < |books| && books[i] == book
  {
    var j :| 0 <= j < |books| && books[j] == book;
    assert Names(books)[j] == book.name;
    var i := FirstIndexOf(Names(books), book.name);
    assert books[i].name == book.name;
  }
}
