/** Retrieval of one chapter: the request to the localized scripture endpoint,
    the request without a translation parameter when that one answers with a
    failure status, and the merge of a machine translation into the verses of
    the fallback answer. The network and the generative service are not
    modelled: what they answered is given to these functions as a value. */
module ChapterFetch {
  import opened Types

  /** The JSON body of a scripture answer, as far as the reader looks at it:
      `response.json()` throws, or the object has no `verses` list, or it has one. */
  datatype Body = Unparsable | NoVerses | Verses(verses: seq<Verse>)

  /** What `await fetch(url)` gave: it threw, or it answered with a status. */
  datatype HttpOutcome = TransportError | Response(ok: bool, body: Body)

  /** What the translation request gave once `JSON.parse` ran: it threw (request
      error, unparsable text, or a `null` value, on which indexing throws), or a
      value whose property `i` carries the string field `t` (Some) or not (None).
      Any parsed value is indexed the same way, so an object with numeric keys
      is given by its entries as well, and a value without such properties by
      `Entries([])`. */
  datatype TranslationReply = TranslationFailed | Entries(entries: seq<Option<string>>)

  /** Two verse records agree on every field except `text`. */
  predicate SameButText(a: Verse, b: Verse) {
    a.book_id == b.book_id && a.book_name == b.book_name && a.chapter == b.chapter && a.verse == b.verse
  }

  /** The text `translated[i]?.t || v.text` picks for position `i`. */
  function TextAt(entries: seq<Option<string>>, i: nat, original: string): string {
    if i < |entries| && entries[i].Some? && entries[i].value != "" then entries[i].value else original
  }

  /** `translateViaAI`: each verse keeps all its fields but the text, which is
      the translation at the same position when there is a non-empty one; any
      failure gives back the verses untouched. */
  function TranslateViaAI(vs: seq<Verse>, reply: TranslationReply): (r: seq<Verse>)
    ensures |r| == |vs|
    ensures forall i :: 0 <= i < |vs| ==> SameButText(r[i], vs[i])
    ensures reply.TranslationFailed? ==> r == vs
    // a present, non-empty translation at position i replaces the text of verse i
    ensures reply.Entries? ==>
              forall i :: 0 <= i < |vs| && i < |reply.entries| && reply.entries[i].Some? && reply.entries[i].value != "" ==>
                r[i].text == reply.entries[i].value
    // a missing or empty one keeps the verse as it was
    ensures reply.Entries? ==>
              forall i :: 0 <= i < |vs| && !(i < |reply.entries| && reply.entries[i].Some? && reply.entries[i].value != "") ==>
                r[i] == vs[i]
  {
    match reply
    case TranslationFailed => vs
    case Entries(entries) => seq(|vs|, i requires 0 <= i < |vs| => vs[i].(text := TextAt(entries, i, vs[i].text)))
  }

  /** The entries the prompt sends: position `i` carries the text of verse `i`. */
  function PromptEntries(vs: seq<Verse>): (r: seq<Option<string>>)
    ensures |r| == |vs|
  {
    seq(|vs|, i requires 0 <= i < |vs| => Some(vs[i].text))
  }

  /** A reply that echoes the prompt leaves the chapter exactly as it was. */
  lemma EchoedTranslationIsIdentity(vs: seq<Verse>)
    ensures TranslateViaAI(vs, Entries(PromptEntries(vs))) == vs
  {
    var r := TranslateViaAI(vs, Entries(PromptEntries(vs)));
    forall i | 0 <= i < |vs|
      ensures r[i] == vs[i]
    {
      assert r[i] == vs[i].(text := TextAt(PromptEntries(vs), i, vs[i].text));
    }
  }

  /** A reply whose entries are missing, or carry empty texts, changes nothing. */
  lemma EmptyTranslationIsIdentity(vs: seq<Verse>, entries: seq<Option<string>>)
    requires forall i :: 0 <= i < |entries| ==> entries[i] == None || entries[i] == Some("")
    ensures TranslateViaAI(vs, Entries(entries)) == vs
  {
    var r := TranslateViaAI(vs, Entries(entries));
    forall i | 0 <= i < |vs|
      ensures r[i] == vs[i]
    {
      assert r[i] == vs[i].(text := TextAt(entries, i, vs[i].text));
    }
  }

  /** Verse numbers of a chapter, in order. */
  function Numbers(vs: seq<Verse>): (r: seq<int>)
    ensures |r| == |vs|
  {
    seq(|vs|, i requires 0 <= i < |vs| => vs[i].verse)
  }

  /** `fetchChapterData`, given what the primary request, the fallback request
      and the translation request answered: the data, or None for a falsy
      result (`null`, or `undefined` when there is no `verses` list). */
  function FetchChapterData(primary: HttpOutcome, fallback: HttpOutcome, reply: TranslationReply): (r: Option<seq<Verse>>)
    // a thrown primary request is caught at once: the fallback is not tried
    ensures primary.TransportError? ==> r.None?
    // a successful primary answer is used as it is, whatever else happens
    ensures primary.Response? && primary.ok && primary.body.Verses? ==> r == Some(primary.body.verses)
    ensures primary.Response? && primary.ok && !primary.body.Verses? ==> r.None?
    // after a failure status, only a successful fallback with verses gives data,
    // with the fallback's numbering, length and fields, whatever the translation did
    ensures primary.Response? && !primary.ok ==>
              (r.Some? <==> fallback.Response? && fallback.ok && fallback.body.Verses?)
    ensures primary.Response? && !primary.ok && r.Some? ==>
              |r.value| == |fallback.body.verses| && Numbers(r.value) == Numbers(fallback.body.verses)
              && forall i :: 0 <= i < |r.value| ==> SameButText(r.value[i], fallback.body.verses[i])
    // the fallback's verses are the ones passed through the translation merge
    ensures primary.Response? && !primary.ok && r.Some? ==> r.value == TranslateViaAI(fallback.body.verses, reply)
    // a failed translation keeps the fallback's own texts
    ensures primary.Response? && !primary.ok && reply.TranslationFailed? && r.Some? ==> r.value == fallback.body.verses
  {
    match primary
    case TransportError => None
    case Response(ok, body) =>
      if ok then
        (if body.Verses? then Some(body.verses) else None)
      else
        match fallback
        case Response(true, Verses(vs)) => Some(TranslateViaAI(vs, reply))
        case _ => None
  }
}
