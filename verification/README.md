# java-later in Dafny

A model of the core of *Later*, a "read it later" service. A user saves a
link. The service resolves the link over HTTP: it follows redirects and
classifies the content as text, image or video. It then stores an `Item`
that holds the resolved URL, the type, the title and whether the page shows
images or videos. A user has at most one item per resolved URL, so saving
the same link again only merges the new tags into the existing item.
Items can be edited (read flag, tags), deleted, and listed:

- the full listing filters by read state, content type, owner and tags,
  sorts, and returns at most `limit` items;
- the tag listing returns every item of the user that carries any of the
  given tags.

Users can attach notes to items and page through the notes on their items.
Users move between entity and DTO through a mapper.

Modules, one per source concern:

- `Common` (`common.dfy`) holds the nullable `Option`, one `Error` type for
  every exception the core throws, `Result`, ASCII case folding for
  `equalsIgnoreCase`, and two small set and sequence facts.
- `Items` (`item.dfy`) holds the `Item` entity, its defaults, and `equals`
  and `hashCode`. Java object identity is an explicit reference number.
- `Retriever` (`retriever.dfy`) holds URL metadata retrieval. The network is
  a value, `Web`:
  - it parses URI strings;
  - it serves a response to each request (status, Content-Type header,
    final URI after redirects, and the page as title plus counts of `img`
    and `video` elements);
  - it knows which status codes are recognised;
  - it supplies the current instant.

  Every function returns the requests it made next to its result. That
  makes "no request beyond the HEAD probe" provable. The HTTP client's
  request builder refuses a URI without an `http` or `https` scheme or
  without a host before anything is sent, and the model does the same.
  `Retrieve` runs the image and video handlers as written, which take the
  title through `new File(uri)` and so fail for every web address (see
  "Findings"); `RetrieveIntended` runs the intended handlers, and the item
  service uses `Retrieve`.
- `ItemMapper` (`item_mapper.dfy`) holds the item mappers and the item DTO.
- `ItemQuery` (`query.dfy`) holds the listing request's filter axes, the
  conjunction of the present conditions, and the three sort orders. It also
  holds the store's query executor: the first `limit` matches in order, or
  all matches.
- `ItemService` (`item_service.dfy`) holds the item service. The user and
  item repositories form one immutable `Store`.
- `Notes` (`note.dfy`) holds the note mappers, adding a note, and the paged
  note listing.
- `UserMapper` (`user_mapper.dfy`) holds the user mappers. A `Clock` value
  provides "now" and the parsing and formatting of date text.

The `IMAGE` content filter compares the stored type with `"img"`. The
retriever, though, stores the top-level media type, which for images is
`"image"`. The model keeps the comparison as written.
`ItemService.ContentFiltersOnRetrievedItems` shows the consequence: no item
saved from a successful retrieval passes the `IMAGE` filter, while
`ARTICLE` and `VIDEO` pass exactly the items retrieved as text and video.

Sort orders follow PostgreSQL's defaults. A null value sorts after every
value in ascending order, so `NEWEST`, which is descending, lists items
without a resolution date first. Titles compare by character code. Items
that tie may come in any order.

## Model

| member | source | states |
|---|---|---|
| Items.NewItem | src/main/java/ru/practicum/item/Item.java:33-69 | a new item has an empty, non-null tag set and every other field null |
| Items.Equals | src/main/java/ru/practicum/item/Item.java:76-81 | an item equals itself, never null or a non-item, and another item exactly when its id is non-null and equal |
| Items.HashCodeIgnoresContents | src/main/java/ru/practicum/item/Item.java:71-74 | every item has the same hash code, whatever its fields |
| Items.EqualsReflexive | src/main/java/ru/practicum/item/Item.java:78 | equality is reflexive even for an item with a null id |
| Items.UnsavedItemsDiffer | src/main/java/ru/practicum/item/Item.java:80 | two distinct objects whose id is null are unequal in both directions |
| Items.EqualsSymmetric | src/main/java/ru/practicum/item/Item.java:76-81 | equality between items is symmetric |
| Items.EqualsTransitive | src/main/java/ru/practicum/item/Item.java:76-81 | equality between items is transitive |
| Items.EqualItemsHashAlike | src/main/java/ru/practicum/item/Item.java:71-81 | equal items have equal hash codes (the equals/hashCode contract) |
| Retriever.StatusError | src/main/java/ru/practicum/item/UrlMetaDataRetrieverImpl.java:92-102 | a response is accepted exactly when its status is known and not 4xx/5xx; an unknown code is reported first, then 401 as no access, then other errors |
| Retriever.RequestError | src/main/java/ru/practicum/item/UrlMetaDataRetrieverImpl.java:74-77 | the request builder refuses a URI without a scheme, with a scheme other than http or https in any case, or without a host, each with the library's message |
| Retriever.Connect | src/main/java/ru/practicum/item/UrlMetaDataRetrieverImpl.java:71-105 | a URI the request builder refuses fails before any request; otherwise exactly one request is sent, and the response is returned exactly when the status checks accept it |
| Retriever.IndexOf | src/main/java/ru/practicum/item/UrlMetaDataRetrieverImpl.java:49 | the position found is the first occurrence of the separator, or the end |
| Retriever.Trim | src/main/java/ru/practicum/item/UrlMetaDataRetrieverImpl.java:49 | the trimmed type part is the input with exactly its leading and trailing characters at or below the space cut off: it is a slice of the input, everything cut is at or below the space, and neither end of the result is |
| Retriever.SplitType | src/main/java/ru/practicum/item/UrlMetaDataRetrieverImpl.java:49 | a split type part gives two tokens whose lower-cased text joined by `/` is the lower-cased type part, a lone `*` giving the wildcard type and subtype, with the parameter text kept |
| Retriever.ParseMediaType | src/main/java/ru/practicum/item/UrlMetaDataRetrieverImpl.java:46-49 | a Content-Type value parses as its split type part and the text from the first `;` on, and otherwise fails with the header text |
| Retriever.SplitTypeAccepts | src/main/java/ru/practicum/item/UrlMetaDataRetrieverImpl.java:49 | a type part splits exactly when it is `*` or two tokens around a `/` with a wildcard type only before a wildcard subtype |
| Retriever.ParseMediaTypeAccepts | src/main/java/ru/practicum/item/UrlMetaDataRetrieverImpl.java:46-49 | the parser accepts exactly the values whose trimmed type part follows that grammar |
| Retriever.Classify | src/main/java/ru/practicum/item/UrlMetaDataRetrieverImpl.java:52-62 | text or the wildcard goes to the text handler, image to the image handler, video to the video handler, anything else to none |
| Retriever.HandleText | src/main/java/ru/practicum/item/UrlMetaDataRetrieverImpl.java:107-126 | a URI the request builder refuses fails with no request; otherwise exactly one GET at the given URI; the title is the page's and each flag holds iff the page has at least one such element |
| Retriever.DropTrailingSlashes | src/main/java/ru/practicum/item/UrlMetaDataRetrieverImpl.java:139 | the result is a prefix of the path that does not end in `/`, and only slashes were removed |
| Retriever.AfterLastSlash | src/main/java/ru/practicum/item/UrlMetaDataRetrieverImpl.java:139 | the result is a suffix without `/`, preceded in the path by `/` unless it is the whole path |
| Retriever.LastSegmentIsFinalSegment | src/main/java/ru/practicum/item/UrlMetaDataRetrieverImpl.java:130-139 | the file name holds no `/` and ends the path up to trailing slashes |
| Retriever.FileName | src/main/java/ru/practicum/item/UrlMetaDataRetrieverImpl.java:130-139 | a file name exists exactly for an absolute, hierarchical `file:` URI without authority, query or fragment and with a non-empty path, and it is the path's last segment; any other scheme fails with the scheme message |
| Retriever.HandleImageAsWritten | src/main/java/ru/practicum/item/UrlMetaDataRetrieverImpl.java:137-144 | the image handler as written succeeds exactly when `new File(uri)` names a file, and then titles the item with that name and sets only the image flag |
| Retriever.HandleVideoAsWritten | src/main/java/ru/practicum/item/UrlMetaDataRetrieverImpl.java:128-135 | the video handler as written succeeds exactly when `new File(uri)` names a file, and then titles the item with that name and sets only the video flag |
| Retriever.HandleImage | src/main/java/ru/practicum/item/UrlMetaDataRetrieverImpl.java:137-144 | the intended image handler sets only the image flag, and its title is the path's last segment, which holds no `/` |
| Retriever.HandleVideo | src/main/java/ru/practicum/item/UrlMetaDataRetrieverImpl.java:128-135 | the intended video handler sets only the video flag, and its title is the path's last segment, which holds no `/` |
| Retriever.AsWrittenHandlersRejectWebUris | src/main/java/ru/practicum/item/UrlMetaDataRetrieverImpl.java:128-144 | for every hierarchical URI the HTTP client accepts both handlers as written fail with the scheme message, while the intended ones name the last path segment |
| Retriever.AfterLastSlashOfSegment | src/main/java/ru/practicum/item/UrlMetaDataRetrieverImpl.java:139 | after a `/`, a slash-free segment is exactly what the name extraction finds |
| Retriever.LastSegmentOfRootFile | src/main/java/ru/practicum/item/UrlMetaDataRetrieverImpl.java:139 | the name of `/name` is `name` |
| Retriever.AsWrittenImageHandlerFailsOnWebFile | src/main/java/ru/practicum/item/UrlMetaDataRetrieverImpl.java:137-144 | an image served over https at `/name` fails in the handler as written, while the intended handler titles it `name` |
| Retriever.AsWrittenImageHandlerCounterexample | src/main/java/ru/practicum/item/UrlMetaDataRetrieverImpl.java:137-144 | `https://example.org/cat.png` fails in the handler as written; the intended handler titles it `cat.png` |
| Retriever.HandleMedia | src/main/java/ru/practicum/item/UrlMetaDataRetrieverImpl.java:54-57 | the as-written image or video handler succeeds exactly when `new File(uri)` does and fails with its error; the intended one always succeeds with the last path segment; exactly the matching flag is set |
| Retriever.DescribeAs | src/main/java/ru/practicum/item/UrlMetaDataRetrieverImpl.java:52-68 | after an accepted probe, at most one further request, a GET at the resolved URI for text only; a record keeps the input string, the resolved URI, the parsed type and the current instant, and as written an image or video record needs a file name |
| Retriever.DescribeMedia | src/main/java/ru/practicum/item/UrlMetaDataRetrieverImpl.java:54-57 | an image or video answer is its handler's outcome, with no further request |
| Retriever.RetrieveWith | src/main/java/ru/practicum/item/UrlMetaDataRetrieverImpl.java:37-69 | a malformed URL fails before any request, and so does a URI the request builder refuses; the HEAD probe comes first and a rejected status ends retrieval; a second request is made only for text and is a GET at the resolved URI; a record keeps the input string, the resolved URI, the parsed type and the current instant; as written an image or video succeeds only with a file name |
| Retriever.RetrieveRejectsRelativeUri | src/main/java/ru/practicum/item/UrlMetaDataRetrieverImpl.java:40-45 | a URL that parses without a scheme fails with the request builder's message and no request |
| Retriever.RetrieveUnsupported | src/main/java/ru/practicum/item/UrlMetaDataRetrieverImpl.java:58-62 | a type that is neither text, image, video nor the wildcard fails as unsupported with the parsed type's text, after the probe alone |
| Retriever.RetrieveImageOrVideo | src/main/java/ru/practicum/item/UrlMetaDataRetrieverImpl.java:54-68 | as written, an image or video makes no second request and succeeds exactly when the resolved URI names a file; a resolved URI the HTTP client accepts fails with the scheme message |
| Retriever.RetrieveIntendedImageOrVideo | src/main/java/ru/practicum/item/UrlMetaDataRetrieverImpl.java:54-68 | with the intended handlers an image or video succeeds without a second request, titled by the last path segment, with exactly the matching flag |
| Retriever.RetrieveText | src/main/java/ru/practicum/item/UrlMetaDataRetrieverImpl.java:52-68 | a text page is fetched again with GET when the resolved URI is accepted by the request builder, and succeeds iff that GET is accepted; title and flags come from the page |
| Retriever.MissingContentTypeIsText | src/main/java/ru/practicum/item/UrlMetaDataRetrieverImpl.java:46-53 | without a Content-Type the page is handled as text (two requests when the resolved URI is accepted) and its record's type is `*` |
| ItemMapper.FromRequest | src/main/java/ru/practicum/item/ItemMapper.java:13-20 | only owner, URL and tags are set; the rest is a new item's default |
| ItemMapper.FromMetadata | src/main/java/ru/practicum/item/ItemMapper.java:22-35 | the item carries the metadata unchanged, the owner, exactly the given tags, no id, and is unread |
| ItemMapper.ToDto | src/main/java/ru/practicum/item/ItemMapper.java:37-43 | the DTO has the item's id, owner id and URL and every other field null |
| ItemMapper.ToDtos | src/main/java/ru/practicum/item/ItemMapper.java:45-53 | one DTO per item, in the same order |
| ItemMapper.DtoHidesTagsAndMetadata | src/main/java/ru/practicum/item/ItemMapper.java:37-43 | items that agree on id, owner and URL have the same DTO, which never shows tags |
| ItemQuery.AllOfFour | src/main/java/ru/practicum/item/ItemServiceImpl.java:108-110 | the conjunction of four collected conditions holds iff each present one holds |
| ItemQuery.ConditionsMeanWanted | src/main/java/ru/practicum/item/ItemServiceImpl.java:67-73 | the collected conditions hold exactly for items of the owner with the requested read state, case-insensitively equal type name, and one of the tags |
| ItemQuery.UnrestrictedWantsOwnerItems | src/main/java/ru/practicum/item/dto/GetItemRequest.java:28-33 | with `ALL` state, `ALL` content and no tags, a listing wants exactly the owner's items |
| ItemQuery.StrLeTotal | src/main/java/ru/practicum/item/dto/GetItemRequest.java:82 | any two titles are comparable |
| ItemQuery.StrLeTransitive | src/main/java/ru/practicum/item/dto/GetItemRequest.java:82 | title order is transitive |
| ItemQuery.InOrderTotal | src/main/java/ru/practicum/item/dto/GetItemRequest.java:78-89 | every sort order relates any two items one way or the other |
| ItemQuery.InOrderTransitive | src/main/java/ru/practicum/item/dto/GetItemRequest.java:78-89 | every sort order is transitive |
| ItemQuery.NewestIsOldestReversed | src/main/java/ru/practicum/item/dto/GetItemRequest.java:80-81 | `NEWEST` is `OLDEST` reversed |
| ItemQuery.Candidates | src/main/java/ru/practicum/item/ItemServiceImpl.java:73 | the matches are stored items |
| ItemQuery.First | src/main/java/ru/practicum/item/ItemServiceImpl.java:64-65 | the chosen item may precede every other item of the set in the sort order |
| ItemQuery.Select | src/main/java/ru/practicum/item/ItemServiceImpl.java:63-73 | distinct matches, min(limit, #matches) of them, sorted, and no left-out match precedes a returned one |
| ItemQuery.SelectAll | src/main/java/ru/practicum/item/ItemServiceImpl.java:84 | every match exactly once and nothing else |
| ItemService.FindByOwnerAndResolvedUrl | src/main/java/ru/practicum/item/ItemServiceImpl.java:42 | a found item is the user's item for the URL; none found means the user has no such item |
| ItemService.Create | src/main/java/ru/practicum/item/ItemServiceImpl.java:44-45 | a first save adds one unread item of the user, holding the metadata and tags, under a new id, and keeps the store valid |
| ItemService.CreateKeepsUnique | src/main/java/ru/practicum/item/ItemServiceImpl.java:42-45 | a first save keeps one item per owner and resolved URL |
| ItemService.MergeTags | src/main/java/ru/practicum/item/ItemServiceImpl.java:46-51 | a repeat save changes only that item's tags, which gain the request's tags; null or empty tags change nothing |
| ItemService.MergeTagsKeepsInvariants | src/main/java/ru/practicum/item/ItemServiceImpl.java:46-51 | a tag merge keeps the store valid and the resolved URLs unique |
| ItemService.AddNewItem | src/main/java/ru/practicum/item/ItemServiceImpl.java:36-55 | an unknown user fails before any request; a retrieval error changes nothing; it succeeds exactly for a known user whose URL is retrieved, and then the item for the resolved URL is created, or found and merged, and the DTO describes it; validity and uniqueness are kept |
| ItemService.Edit | src/main/java/ru/practicum/item/ItemServiceImpl.java:88-106 | a null id is refused by the repository, a missing item fails not-found and another user's item forbidden, all changing nothing; it succeeds exactly for the caller's own existing item, and then only the read flag (when given) and the tags of that item change, replaced or extended |
| ItemService.EditAppendsCompose | src/main/java/ru/practicum/item/ItemServiceImpl.java:103-105 | adding tags twice equals adding both sets once |
| ItemService.EditReplaceForgetsOldTags | src/main/java/ru/practicum/item/ItemServiceImpl.java:101-102 | replacing tags gives the same store whatever tags the item had |
| ItemService.DeleteItem | src/main/java/ru/practicum/item/ItemServiceImpl.java:57-60 | exactly the item with both the id and the owner is removed; otherwise nothing changes |
| ItemService.DeletePreservesInvariants | src/main/java/ru/practicum/item/ItemServiceImpl.java:58-59 | deleting keeps the store valid and the resolved URLs unique |
| ItemService.CandidatesAreMatching | src/main/java/ru/practicum/item/ItemServiceImpl.java:67-73 | the query's matches are exactly the wanted items |
| ItemService.GetItems | src/main/java/ru/practicum/item/ItemServiceImpl.java:62-77 | a limit below one fails; otherwise min(limit, #wanted) distinct wanted items of the user in sort order with no better item left out, and with no filters that is the user's items |
| ItemService.GetItemsByTags | src/main/java/ru/practicum/item/ItemServiceImpl.java:79-86 | exactly the user's items with at least one of the tags, each once |
| ItemService.ContentFiltersOnRetrievedItems | src/main/java/ru/practicum/item/dto/GetItemRequest.java:35-52 | a retrieved item never passes the `IMAGE` filter; `ARTICLE` and `VIDEO` pass exactly text and video items |
| Notes.MapToDto | src/main/java/ru/practicum/note/ItemNoteMapper.java:9-13 | the DTO has the note's id and text, its item's id and URL, and no date |
| Notes.MapToEntity | src/main/java/ru/practicum/note/ItemNoteMapper.java:15-19 | the note has the DTO's text, the given item, and the DTO's item id as its own id |
| Notes.NoteRoundTrip | src/main/java/ru/practicum/note/ItemNoteMapper.java:9-19 | a DTO mapped to a note and back keeps text and item id, gains the item URL, drops the date, and reports the item id as note id |
| Notes.MapToEntityIgnoresNoteId | src/main/java/ru/practicum/note/ItemNoteMapper.java:15-19 | the DTO's own note id never reaches the entity |
| Notes.AddNewItemNote | src/main/java/ru/practicum/note/ItemNoteServiceImpl.java:21-28 | a null item id or an unknown item fails and stores nothing; otherwise the stored note is attached to the looked-up item and the DTO reports it |
| Notes.AddNewItemNoteIgnoresCaller | src/main/java/ru/practicum/note/ItemNoteServiceImpl.java:22-28 | the outcome does not depend on the calling user |
| Notes.JavaDiv | src/main/java/ru/practicum/note/ItemNoteServiceImpl.java:46 | the quotient truncates toward zero: the remainder has the dividend's sign and is smaller than the divisor |
| Notes.PageIndex | src/main/java/ru/practicum/note/ItemNoteServiceImpl.java:46 | the page is 0 for a non-positive `from`; for a positive size it is the page whose range holds `from` |
| Notes.NotesOf | src/main/java/ru/practicum/note/ItemNoteServiceImpl.java:47 | exactly the notes whose item belongs to the user, in the order of the given rows |
| Notes.NotesOfSingle | src/main/java/ru/practicum/note/ItemNoteServiceImpl.java:47 | a single note is listed exactly when its item is the user's |
| Notes.NotesOfDistributes | src/main/java/ru/practicum/note/ItemNoteServiceImpl.java:47 | the notes of a concatenation are those of the first part followed by those of the second, so the order of the given rows is kept |
| Notes.NoteDtos | src/main/java/ru/practicum/note/ItemNoteServiceImpl.java:47-49 | one DTO per note, in order |
| Notes.PageOf | src/main/java/ru/practicum/note/ItemNoteServiceImpl.java:46-47 | at most `size` notes taken from the start position on, and every note in the range is included |
| Notes.ListAllItemsWithNotes | src/main/java/ru/practicum/note/ItemNoteServiceImpl.java:44-50 | a positive `from` with size 0 divides by zero; otherwise a size below one is refused: for its page index when the truncated `from / size` is negative (a negative size and a `from` at least its magnitude), and for its size when the page is 0 (a non-positive `from`, or a positive one below the size's magnitude); a positive size succeeds with at most `size` notes |
| Notes.ListingIsPage | src/main/java/ru/practicum/note/ItemNoteServiceImpl.java:46-49 | with a positive size the listing is the page starting at page index times size |
| Notes.PageStart | src/main/java/ru/practicum/note/ItemNoteServiceImpl.java:46 | the page's start is at most `from` and the page's end is beyond it |
| Notes.ListingHoldsFrom | src/main/java/ru/practicum/note/ItemNoteServiceImpl.java:46-49 | the listed page holds the user's note at position `from` |
| Notes.NonPositiveFromListsFirstPage | src/main/java/ru/practicum/note/ItemNoteServiceImpl.java:46-49 | a non-positive `from` lists the user's first `size` notes |
| UserMapper.ParseDate | src/main/java/ru/practicum/user/mapper/UserMapper.java:50-54 | null text is now; text that parses gives its instant; other text fails with that text |
| UserMapper.FormatDate | src/main/java/ru/practicum/user/mapper/UserMapper.java:56-61 | null stays null and an instant becomes its formatted text |
| UserMapper.MapToModel | src/main/java/ru/practicum/user/mapper/UserMapper.java:19-28 | id, e-mail and names are copied, a null state becomes `ACTIVE`, the date is parsed (now when null), and it fails iff the date does not parse |
| UserMapper.MapToDto | src/main/java/ru/practicum/user/mapper/UserMapper.java:30-39 | id, names, e-mail and state are copied and the date is formatted, null staying null |
| UserMapper.MapRequestToModel | src/main/java/ru/practicum/user/mapper/UserMapper.java:41-48 | only e-mail and names are set; id, date and state stay null |
| UserMapper.DtoRoundTrip | src/main/java/ru/practicum/user/mapper/UserMapper.java:19-39 | DTO to user to DTO keeps id, names, e-mail and a non-null state; a null state comes back `ACTIVE`, a null date as now |
| UserMapper.DtoRoundTripExact | src/main/java/ru/practicum/user/mapper/UserMapper.java:19-39 | a DTO with state and a date that formats back to itself survives the round trip unchanged |
| UserMapper.UserRoundTrip | src/main/java/ru/practicum/user/mapper/UserMapper.java:19-39 | a user with state and date survives user to DTO to user when parsing reads back what formatting writes |
| UserMapper.ExactRoundTripNeverApplies | src/main/java/ru/practicum/user/mapper/UserMapper.java:17-61 | with an ISO-8601 parser and the `yyyy.MM.dd,hh:mm:ss` formatter no parsed date text formats back to itself |
| UserMapper.DatedUserDoesNotRoundTrip | src/main/java/ru/practicum/user/mapper/UserMapper.java:17-61 | with that parser and formatter a user with a date fails when mapped to a DTO and back, on the formatted date |
| UserMapper.SignUpGetsDefaults | src/main/java/ru/practicum/user/mapper/UserMapper.java:19-48 | a signed-up user's DTO has no date, and mapping it back stamps now and `ACTIVE` |

## Left out

- The HTTP client is left out apart from its request builder's URI check: redirects, time-outs, I/O and interruption errors. `Web.serve` gives the response of each request, with its final URI.
- Jsoup parsing is left out. A page is its title and its counts of `img` and `video` elements.
- Media-type parameters are not parsed: the text from the first `;` on is kept as sent, so parameter validation, quoting and the normalised parameter text of `toString()` are left out. The type part is trimmed, split, token-checked and lower-cased. `HttpStatus.resolve` is the set `Web.knownStatuses`.
- Retriever.RetrieveUnsupported: the error carries the lower-cased `type/subtype` followed by the parameter text as sent, not the library's re-printed parameters.
- `Instant.now()` is the value `Web.now` or `Clock.now`. Date text parsing and the `yyyy.MM.dd,hh:mm:ss` formatting are the abstract `Clock.parse` and `Clock.format`.
- UserMapper.DtoRoundTripExact: its requirement that formatting the parsed date gives back the same text holds for no text under the real parser and formatter (`UserMapper.ExactRoundTripNeverApplies`). The lemma states the property under that assumption only.
- UserMapper.UserRoundTrip: its requirement that parsing reads back what formatting writes does not hold for the real pattern. `Instant.parse` expects ISO-8601, and `hh` is a 12-hour field. The lemma states the property under that assumption only; `UserMapper.DatedUserDoesNotRoundTrip` states what happens instead.
- JPA, QueryDSL and transactions are left out. The repositories are one immutable `Store`, and nothing is concurrent. Lazy loading is not modelled.
- PostgreSQL collation is not modelled: titles compare by character code. The relative order of tied items is not specified.
- ItemService.AddNewItem: the hit case is stated only for stores with one item per owner and resolved URL. With duplicates the repository would throw an incorrect-result-size error, which is not modelled.
- ItemService.Edit: a null replace flag is excluded by its requires, because unboxing it throws a NullPointerException. So are null tags when they are added, because `addAll(null)` throws one. An item whose tag collection is null reads as empty.
- A null URL in `AddItemRequest`, a null state, content type or sort in `GetItemRequest`, and a null tag set in the tag listing each throw a NullPointerException. The model's types rule them out.
- Item, note and user ids are unbounded integers. Java's `long` width is not modelled.
- Notes.AddNewItemNote: the repository assigns the stored note's id, given as `savedId`. How JPA treats a note whose id is preset to the item id is not modelled.
- Notes.NotesOf: the note query names no order and the page request no sort, so the database may return the rows in a different order on each request. `notes` stands for one such row order, and the paging lemmas hold for that order only: pages fetched by separate requests may overlap or skip notes.
- `searchNotesByUrl` and `searchNotesByTag` are left out. Both pass straight through to repository queries.
- `UserServiceImpl`, the controllers, the exception handler and message localisation are left out.
- The `User` entity and the `UserState` enum are not part of this model. Only `ACTIVE` is named; other states are kept by name.
- The user mapper reads a sign-up request through record-style accessors, while the request is a Lombok data class. The model reads the fields directly.

## Findings

| source | as written | input that shows it | evidently intended | confidence | as-written member | corrected member |
|---|---|---|---|---|---|---|
| src/main/java/ru/practicum/item/UrlMetaDataRetrieverImpl.java:128-144 | `handleImage` and `handleVideo` take the title from `new File(uri).getName()`, which throws for any URI that is not `file:` | an image answered at `https://example.org/cat.png` | the title is the last segment of the resolved URI's path (`cat.png`) | high (not executed) | Retriever.HandleImageAsWritten, Retriever.HandleVideoAsWritten, Retriever.AsWrittenImageHandlerFailsOnWebFile, Retriever.AsWrittenImageHandlerCounterexample, Retriever.RetrieveImageOrVideo | Retriever.HandleImage, Retriever.HandleVideo, Retriever.RetrieveIntendedImageOrVideo |
