/**
 * Conversions between items, the requests that create them, the metadata
 * record the retriever produces, and the item DTO handed back to clients.
 */
module ItemMapper {
  import opened Common
  import opened Items
  import opened Retriever

  /** A request to save a link: the URL string and the tags to attach
      (the tag set may be null). */
  datatype AddItemRequest = AddItemRequest(url: string, tags: Option<set<string>>)

  /** The item as shown to clients; every field is nullable. */
  datatype ItemDto = ItemDto(
    id: Option<int>,
    userId: Option<int>,
    url: Option<string>,
    resolvedUrl: Option<string>,
    mimeType: Option<string>,
    title: Option<string>,
    hasImage: Option<bool>,
    hasVideo: Option<bool>,
    dateResolved: Option<Instant>,
    unread: Option<bool>,
    tags: Option<set<string>>)

  /** The DTO with every field null. */
  const EmptyDto: ItemDto := ItemDto(None, None, None, None, None, None, None, None, None, None, None)

  /** `mapToEntity(request, user)`: a fresh item owned by `user` with the
      request's URL and tag set; nothing else is set. */
  function FromRequest(request: AddItemRequest, user: int): (i: Item)
    ensures i.owner == Some(user) && i.url == Some(request.url) && i.tags == request.tags
    ensures i.(owner := None, url := None, tags := Some({})) == NewItem()
  {
    NewItem().(owner := Some(user), url := Some(request.url), tags := request.tags)
  }

  /** `mapToEntity(metadata, user, tags)`: a new, unread item of `user`
      carrying the retrieved metadata and exactly the given tag set. */
  function FromMetadata(meta: UrlMetadata, user: int, tags: Option<set<string>>): (i: Item)
    ensures i.id.None? && i.owner == Some(user) && i.tags == tags && i.unread == Some(true)
    ensures StoredMetadata(i) == Some(meta)
  {
    Item(None, Some(user), Some(meta.normalUrl), Some(meta.resolvedUrl), Some(meta.mimeType),
         Some(meta.title), Some(meta.hasImage), Some(meta.hasVideo), Some(meta.dateResolved),
         Some(true), tags)
  }

  /** The metadata an item was created from, when all its metadata fields
      are present: URL, resolved URL, type, title, both flags and the
      resolution instant. */
  function StoredMetadata(i: Item): Option<UrlMetadata> {
    if i.url.Some? && i.resolvedUrl.Some? && i.mimeType.Some? && i.title.Some?
       && i.hasImage.Some? && i.hasVideo.Some? && i.dateResolved.Some?
    then Some(UrlMetadata(i.url.value, i.resolvedUrl.value, i.mimeType.value, i.title.value,
                          i.hasImage.value, i.hasVideo.value, i.dateResolved.value))
    else None
  }

  /** `mapToDto(item)`: only id, owner id and URL reach the client; the tags
      and the metadata are dropped. The owner must be set. */
  function ToDto(item: Item): (d: ItemDto)
    requires item.owner.Some?
    ensures d.id == item.id && d.userId == item.owner && d.url == item.url
    ensures d.(id := None, userId := None, url := None) == EmptyDto
  {
    EmptyDto.(id := item.id, userId := item.owner, url := item.url)
  }

  /** `mapToDto(items)`: one DTO per item, in the same order. */
  method ToDtos(items: seq<Item>) returns (dtos: seq<ItemDto>)
    requires forall i :: 0 <= i < |items| ==> items[i].owner.Some?
    ensures |dtos| == |items|
    ensures forall i :: 0 <= i < |items| ==> dtos[i] == ToDto(items[i])
  {
    dtos := [];
    var n := 0;
    while n < |items|
      invariant n <= |items|
      invariant |dtos| == n
      invariant forall i :: 0 <= i < n ==> dtos[i] == ToDto(items[i])
    {
      dtos := dtos + [ToDto(items[n])];
      n := n + 1;
    }
  }

  /** Two items that differ only in their tags (or metadata) look the same
      to a client: the DTO cannot show a tag merge. */
  lemma DtoHidesTagsAndMetadata(a: Item, b: Item)
    requires a.owner.Some? && a.id == b.id && a.owner == b.owner && a.url == b.url
    ensures ToDto(a) == ToDto(b)
    ensures ToDto(a).tags.None?
  {
  }
}
