# Bíblia Iluminada: reading view and counselor session, modelled in Dafny

Bíblia Iluminada is a single-page devotional reader. This project models its two views that carry logic of their own:

- The reading view (`Reader.tsx`). It keeps the chapter on screen and an in-memory chapter cache keyed by the string `"<book>-<chapter>"`. It loads a chapter from the cache, or from the scripture service with one fallback request and a machine translation of the fallback's verses. After every successful load it prefetches the next chapter in the fixed book order. It also has previous/next buttons, a book picker, a thematic search whose JSON answer is read tolerantly, a case-insensitive jump to a search result, and verse narration.
- The counselor view (`AICounselor.tsx`). It keeps an append-only conversation. A send is refused while a reply is awaited. Each accepted send appends the user's message and then exactly one assistant message. Narration plays one message at a time.

Files:

- `js_strings.dfy`: the JavaScript string operations the views depend on. These are `trim` (used only as a blank test), `toLowerCase` on book names, and the decimal rendering of a chapter number.
- `types.dfy`: the records (`Book`, `Verse`, `ChatMessage`) and the assumptions on the book table.
- `navigation.dfy`: the step to the next chapter, the cache key and the name lookups in the book table.
- `chapter_fetch.dfy`: `fetchChapterData` and the translation merge of `translateViaAI`.
- `search.dfy`: reading the search answer and the `goToVerse` lookup.
- `reader.dfy`: the reading view as a class `Reader` whose methods update its fields as the component's state setters do.
- `counselor.dfy`: the counselor view as a class `Session`.

Every answer of the scripture service and of the generative service is a parameter of the operation that waits for it. Operations run one after the other. Ghost fields record the requests issued: every chapter fetch by its cache key, and every search query and chat text sent. This lets contracts say "no request was made".

`BIBLE_BOOKS` comes from `constants.ts`, which is not part of this model. It is the `books` parameter of `Reader`, and the predicate `BookTable` states what the model assumes of it: it is non-empty, every book has at least one chapter, and display names are unique.

The model keeps these details of the code:

- A thrown primary scripture request is caught at once and gives no data. Only a non-success status leads to the fallback request (Reader.tsx:63-76).
- The thematic search keeps every entry of the answer. Nothing truncates the list to ten or checks book names (Reader.tsx:154).
- The reading view refuses only a repeat narration of the verse already being narrated. Another verse starts while one plays (Reader.tsx:135). The counselor refuses any narration while one plays (AICounselor.tsx:28).
- On a cache hit, `loadCurrentChapter` does not clear a previous error. See Findings.

## Model

| member | source | states |
|---|---|---|
| `JsStrings.Trim` | Reader.tsx:143 | `trim` gives the slice of the text between its leading and its trailing white space, starting and ending with a character that is not white space |
| `JsStrings.Lower` | Reader.tsx:164 | `toLowerCase` keeps the length and maps each capital letter to its small letter, position by position |
| `JsStrings.LowerEqualIffSameUpToCase` | Reader.tsx:164 | two names lower-case to the same text exactly when they differ only in the case of their letters |
| `JsStrings.TrimmedEmptyIffBlank` | Reader.tsx:143 | `s.trim()` is empty exactly when every character of `s` is JavaScript white space; this is the blank test of the search and of the send |
| `JsStrings.LowerIdempotent` | Reader.tsx:164 | lower-casing a lower-cased name changes nothing |
| `JsStrings.IntToStringSign` | Reader.tsx:92 | the rendering of a chapter number starts with '-' exactly when the number is negative |
| `JsStrings.IntToStringInjective` | Reader.tsx:92 | two different chapter numbers, negative ones included, never render as the same text |
| `JsStrings.NatToStringInjective` | Reader.tsx:92 | two different chapter numbers never render as the same decimal text |
| `Navigation.NextPosition` | Reader.tsx:80-90 | there is no next chapter exactly at or past the last chapter of the last book; from a chapter >= 0 the next position is a real chapter of the table; it stays in the same book or is chapter 1 of the next book |
| `Navigation.NextPositionIsSuccessor` | Reader.tsx:79-90 | from any chapter of the corpus, the prefetch step goes to the chapter right after it in reading order, and stops only at the very last chapter |
| `Navigation.ChapterKeyShape` | Reader.tsx:92 | the cache key `${name}-${chapter}` is the book's name, a '-', and the chapter's decimal digits, with a second '-' before them for a negative chapter |
| `Navigation.ChapterKeyInjective` | Reader.tsx:92 | two `"<name>-<chapter>"` keys with non-negative chapters are equal only for the same book name and chapter |
| `Navigation.NextKeyDiffers` | Reader.tsx:92-93 | the key the prefetch targets is never the key of the chapter it starts from, for any chapter number, negative ones included |
| `Navigation.FirstIndexOf` | Reader.tsx:109 | `findIndex` gives the first index holding the name, or -1 exactly when no entry holds it |
| `Navigation.IndexOfTableBook` | Reader.tsx:109 | for the current book, the `findIndex` by name finds that very book of the table |
| `ChapterFetch.TranslateViaAI` | Reader.tsx:38-57 | the result has the input's length; every field except `text` is kept; a present, non-empty translation at position `i` replaces the text of verse `i`; a missing or empty one keeps the verse; any failure returns the input unchanged |
| `ChapterFetch.EchoedTranslationIsIdentity` | Reader.tsx:41-52 | a translation reply that echoes the prompt's texts gives back the chapter unchanged |
| `ChapterFetch.EmptyTranslationIsIdentity` | Reader.tsx:52 | a reply with only missing or empty texts leaves every verse as it was |
| `ChapterFetch.FetchChapterData` | Reader.tsx:59-77 | a successful primary answer with verses is used as is; a thrown primary request or a primary answer without verses gives null; after a failure status, data comes exactly when the fallback succeeds with verses, and it is those verses passed through the translation merge: same length, numbers and fields, and their own texts when the translation fails |
| `Search.NormalizeSearch` | Reader.tsx:153-154 | an array answer is used as is; an object gives its `verses` list, else its `results` list, else the empty list; a failed request or a `null` answer keeps the previous results |
| `Search.NormalizedEntriesComeFromAnswer` | Reader.tsx:154 | the results shown are empty or exactly one list of the answer; no entry is invented or reordered |
| `Search.FindBook` | Reader.tsx:164 | the book found is the first whose lower-cased name equals the lower-cased query; nothing is found exactly when no name matches |
| `Search.FindBookIgnoresCase` | Reader.tsx:164 | looking up a lower-cased query finds the same book as the original spelling |
| `Search.FindBookSameUpToCase` | Reader.tsx:164 | two spellings of a name that differ only in the case of their letters find the same book |
| `Search.FindBookFindsTableBook` | Reader.tsx:164 | every book is found under its own display name when no other name differs from it only in case |
| `ReaderView.PrefetchTarget` | Reader.tsx:80-93 | there is nothing to prefetch from the last chapter of the last book, nor when the next chapter's key is already cached; otherwise the target is chapter + 1 of the same book, or chapter 1 of the next book |
| `ReaderView.Prefetched` | Reader.tsx:95-98 | a prefetch with a target and data adds exactly that key with that data; otherwise the cache is unchanged; existing entries are always kept |
| `ReaderView.Reader.constructor` | Reader.tsx:21-34 | the view opens at chapter 1 of the first book with an empty cache, no error and nothing loading |
| `ReaderView.Reader.CurrentScreen` | Reader.tsx:196-201 | the loading indicator is shown whenever loading; otherwise the error whenever one is set; the verses only when neither |
| `ReaderView.Reader.CurrentIndex` | Reader.tsx:109 | the index used for the prefetch is that of the current book |
| `ReaderView.Reader.PrefetchNext` | Reader.tsx:79-99 | requests exactly the prefetch target, if any; the cache gains that key only on data, and every other entry is unchanged |
| `ReaderView.Reader.FetchCurrentChapter` | Reader.tsx:114-127 | on a miss the chapter is requested once; with data the verses become the data, the cache gains it and the next chapter is prefetched; without data the error is set and the cache and verses are untouched; loading ends false |
| `ReaderView.Reader.LoadCurrentChapterAsWritten` | Reader.tsx:101-112 | the source's hit path: the cached verses are shown, loading ends false, the next chapter is prefetched, and the error keeps its old value |
| `ReaderView.Reader.LoadCurrentChapter` | Reader.tsx:101-128 | a hit shows the cached verses without requesting the chapter again and prefetches the next one; a miss behaves as `FetchCurrentChapter`; the cache only grows; when the chapter is available it is what the view shows, otherwise the error is shown |
| `ReaderView.Reader.PreviousChapter` | Reader.tsx:190 | goes back one chapter unless at chapter 1 or below; a chapter within the book stays within it |
| `ReaderView.Reader.NextChapter` | Reader.tsx:191 | goes forward one chapter unless at or past the book's last chapter; a chapter within the book stays within it |
| `ReaderView.Reader.PickBook` | Reader.tsx:272 | choosing a book opens its chapter 1 and closes the picker |
| `ReaderView.Reader.EditQuery` | Reader.tsx:248 | the search field holds what was typed |
| `ReaderView.Reader.HandleSearch` | Reader.tsx:141-161 | a blank query sends nothing and changes nothing; otherwise the query is sent once, the normalised answer replaces the results unless the request failed, and the searching flag ends false |
| `ReaderView.Reader.GoToVerse` | Reader.tsx:163-172 | with no case-insensitive name match nothing changes; otherwise the matching book and the chapter are opened, and the search is closed and emptied |
| `ReaderView.Reader.StartSpeaking` | Reader.tsx:134-136 | narration of a verse is refused only while that same verse is narrated |
| `ReaderView.Reader.FinishSpeaking` | Reader.tsx:137-138 | after a narration no verse is marked as narrated |
| `ReaderView.StaleErrorHidesCachedChapter` | Reader.tsx:104-112 | with the source's load, the steps load chapter 1, fail on chapter 2 and return to chapter 1 end on the error screen |
| `ReaderView.CachedChapterShownAfterFailedLoad` | Reader.tsx:114-115 | with the corrected load, the same steps end showing cached chapter 1 |
| `Counselor.TextToSend` | AICounselor.tsx:35 | the text sent is `customPrompt` when it is a non-empty string, otherwise the typed input |
| `Counselor.AssistantContent` | AICounselor.tsx:55-59 | the assistant message is never empty: the reply text when non-empty, the fixed "problem" text when empty, the fixed connection-error text on failure |
| `Counselor.FallbacksAreDistinct` | AICounselor.tsx:55-59 | the connection-error text appears only for a failed request, and the "problem" text only for an empty reply, unless the service itself answered with that very text |
| `Counselor.ConversationAlternates` | AICounselor.tsx:39-59 | in the conversation, question `i` is message `2i` and its reply is message `2i + 1` |
| `Counselor.Session.constructor` | AICounselor.tsx:15-18 | the view opens with no messages, an empty box, nothing loading and nothing narrated |
| `Counselor.Session.EditInput` | AICounselor.tsx:131 | the message box holds what was typed |
| `Counselor.Session.BeginSend` | AICounselor.tsx:34-41 | a blank text, or a send while loading, changes nothing; otherwise exactly the user message is appended, the box is cleared and loading is set; the invariant that messages are the alternating conversation of texts sent and replies is kept |
| `Counselor.Session.CompleteSend` | AICounselor.tsx:55-62 | exactly one assistant message is appended, and loading ends false |
| `Counselor.Session.HandleSend` | AICounselor.tsx:34-63 | an accepted send leaves the earlier messages as a prefix and adds exactly the user message and one assistant message; loading ends false; a refused send changes nothing |
| `Counselor.Session.StartNarration` | AICounselor.tsx:27-29 | narration starts only when none is playing, and records the message index; at most one narration plays at any time |
| `Counselor.Session.FinishNarration` | AICounselor.tsx:30-31 | after the narration the index is reset to none |
| `Counselor.Session.HandleSpeak` | AICounselor.tsx:27-32 | a complete narration, or a refused one, leaves the narration state as it was |

## Left out

- Network and generative calls are not modelled. This covers the URLs, `encodeURIComponent`, model names, prompts and the persona instruction. Their results are parameters.
- `speakText` and `AudioUtils` are not part of this model. A narration is its start step and its end step.
- `JSON.parse` results are reduced to the shapes the code tells apart. Values the code would pass on unchecked are not modelled: a `verses` or `results` field that is truthy but not a list, a non-string truthy `t` field in a translation, a non-integer chapter number.
- `JsStrings.LowerChar`: models `toLowerCase` only for ASCII capitals and the Latin-1 capitals U+00C0-U+00DE. These are enough for Portuguese book names; the rest of Unicode case mapping is left out.
- React scheduling is not modelled. The effect that reloads on a book or chapter change (Reader.tsx:130-132) is a separate call to `LoadCurrentChapter`. The fire-and-forget prefetch finishes before the load returns. Overlapping asynchronous runs are not modelled.
- `ReaderView.Reader.PrefetchNext`: reads the current cache. The source reads the cache captured when the callback was created. That stale copy lacks at most the key just loaded, and the prefetch never targets that key (`Navigation.NextKeyDiffers`).
- `Navigation.ChapterKeyInjective`: holds only for chapters >= 0. With a negative chapter, which only a malformed search result could supply, `"A--3"` is the key of both ("A", -3) and ("A-", 3).
- Scrolling, rendering and styling are not modelled. `Reader.CurrentScreen` keeps only the choice between loading indicator, error and verses (Reader.tsx:196-202). The handlers that only open or close a panel (Reader.tsx:178, 188, 246, 267, 269) are plain assignments and are left out.
- `App.tsx`, `DailyDevotional.tsx`, the other interfaces of `types.ts`, and the counselor's context-verse banner are left out: they only route views or store service output, with no checks of their own.

## Findings

| source | as written | input that shows it | evidently intended | confidence | as-written member | corrected member |
|---|---|---|---|---|---|---|
| Reader.tsx:104-111 | a cache hit sets the verses and clears the loading flag but leaves `error` as it was; the view renders the error whenever it is set (Reader.tsx:201) | load chapter 1 successfully, move to chapter 2 while the service is down (error set), go back to chapter 1, which is cached: the error screen stays, and its retry button hits the cache again | the hit path clears the error, as the miss path does at Reader.tsx:115 | medium; not executed | `ReaderView.StaleErrorHidesCachedChapter` (with `ReaderView.Reader.LoadCurrentChapterAsWritten`) | `ReaderView.Reader.LoadCurrentChapter` |
