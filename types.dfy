/** The records the two views exchange: a book of the fixed book table, a verse
    as the scripture service returns it, and a chat message. */
module Types {

  datatype Option<+T> = None | Some(value: T)

  /** An entry of the fixed book table: display name, the name the scripture
      service is queried with, and the number of chapters. */
  datatype Book = Book(name: string, apiName: string, chapters: int)

  /** A verse record of the scripture service. */
  datatype Verse = Verse(book_id: string, book_name: string, chapter: int, verse: int, text: string)

  datatype Role = User | Assistant

  datatype ChatMessage = ChatMessage(role: Role, content: string)

  /** What the book table guarantees: it is not empty, every book has at least
      one chapter, and no two books share a display name. */
  predicate BookTable(books: seq<Book>) {
    && |books| > 0
    && (forall i :: 0 <= i < |books| ==> books[i].chapters >= 1)
    && (forall i, j :: 0 <= i < j < |books| ==> books[i].name != books[j].name)
  }
}
