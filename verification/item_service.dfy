/**
 * The item service: saving a link (dedup by owner and resolved URL, tag
 * merge on a repeat), editing, deleting, and the two listings. The user and
 * item repositories are one `Store` value: the ids of existing users, the
 * items by id, and the next id the database will assign.
 */
module ItemService {
  import opened Common
  import opened Items
  import opened Retriever
  import opened ItemMapper
  import opened ItemQuery

  datatype Store = Store(users: set<int>, items: map<int, Item>, nextId: int)

  /** A store's items carry their own key as id, every id is below the next
      one to be assigned, and every item has an owner. */
  predicate Valid(st: Store) {
    forall k :: k in st.items ==> st.items[k].id == Some(k) && k < st.nextId && st.items[k].owner.Some?
  }

  /** `item` is `user`'s item for the resolved URL `url`. */
  predicate SavedAs(item: Item, user: int, url: string) {
    item.owner == Some(user) && item.resolvedUrl == Some(url)
  }

  /** No owner has two items with the same resolved URL. */
  predicate UniqueResolved(items: map<int, Item>) {
    forall a, b :: a in items && b in items && a != b && items[a].owner.Some? && items[a].resolvedUrl.Some?
      ==> !SavedAs(items[b], items[a].owner.value, items[a].resolvedUrl.value)
  }

  /** An item as the database stores it: with its assigned id and a non-null
      tag collection. */
  function Persist(item: Item, id: int): Item {
    item.(id := Some(id), tags := Some(Tags(item)))
  }

  /** `findByUserAndResolvedUrl`. */
  method FindByOwnerAndResolvedUrl(items: map<int, Item>, user: int, url: string) returns (found: Option<int>)
    ensures found.Some? ==> found.value in items && SavedAs(items[found.value], user, url)
    ensures found.None? ==> forall k :: k in items ==> !SavedAs(items[k], user, url)
  {
    var rest := items.Keys;
    while rest != {}
      invariant rest <= items.Keys
      invariant forall k :: k in items && k !in rest ==> !SavedAs(items[k], user, url)
      decreases rest
    {
      NonEmptyHasElement(rest);
      var k :| k in rest;
      if SavedAs(items[k], user, url) {
        return Some(k);
      }
      rest := rest - {k};
    }
    return None;
  }

  /** No item of `user` has the resolved URL `url`. */
  predicate NoneSaved(items: map<int, Item>, user: int, url: string) {
    forall k :: k in items ==> !SavedAs(items[k], user, url)
  }

  /** The store after the first save of `meta` for `user`: one new, unread
      item under the next id, holding the metadata and the given tags. */
  function Create(st: Store, user: int, meta: UrlMetadata, tags: Option<set<string>>): (st': Store)
    requires Valid(st)
    ensures st.nextId !in st.items
    ensures st'.users == st.users && st'.items.Keys == st.items.Keys + {st.nextId}
    ensures forall k :: k in st.items ==> st'.items[k] == st.items[k]
    ensures var item := st'.items[st.nextId];
            && StoredMetadata(item) == Some(meta)
            && item.owner == Some(user)
            && item.unread == Some(true)
            && Tags(item) == tags.GetOr({})
    ensures Valid(st')
  {
    st.(items := st.items[st.nextId := Persist(FromMetadata(meta, user, tags), st.nextId)], nextId := st.nextId + 1)
  }

  /** A first save keeps the resolved URLs of each owner unique. */
  lemma CreateKeepsUnique(st: Store, user: int, meta: UrlMetadata, tags: Option<set<string>>)
    requires Valid(st) && UniqueResolved(st.items) && NoneSaved(st.items, user, meta.resolvedUrl)
    ensures UniqueResolved(Create(st, user, meta, tags).items)
  {
    var items := Create(st, user, meta, tags).items;
    forall a, b | a in items && b in items && a != b && items[a].owner.Some? && items[a].resolvedUrl.Some?
      ensures !SavedAs(items[b], items[a].owner.value, items[a].resolvedUrl.value)
    {
      if a == st.nextId {
        assert b in st.items && !SavedAs(st.items[b], user, meta.resolvedUrl);
      } else if b == st.nextId {
        assert a in st.items && !SavedAs(st.items[a], user, meta.resolvedUrl);
      } else {
        assert a in st.items && b in st.items;
      }
    }
  }

  /** The store after a repeat save of item `k`: its tags gain `tags` when
      they are present and non-empty; nothing else changes. */
  function MergeTags(st: Store, k: int, tags: Option<set<string>>): (st': Store)
    requires k in st.items
    ensures st'.users == st.users && st'.nextId == st.nextId && st'.items.Keys == st.items.Keys
    ensures forall j :: j in st.items && j != k ==> st'.items[j] == st.items[j]
    ensures st'.items[k].(tags := st.items[k].tags) == st.items[k]
    ensures Tags(st'.items[k]) == Tags(st.items[k]) + tags.GetOr({})
    ensures tags.GetOr({}) == {} ==> st' == st
  {
    if tags.Some? && tags.value != {} then
      st.(items := st.items[k := st.items[k].(tags := Some(Tags(st.items[k]) + tags.value))])
    else st
  }

  /** A tag merge keeps the store valid and the resolved URLs unique. */
  lemma MergeTagsKeepsInvariants(st: Store, k: int, tags: Option<set<string>>)
    requires k in st.items && Valid(st) && UniqueResolved(st.items)
    ensures Valid(MergeTags(st, k, tags)) && UniqueResolved(MergeTags(st, k, tags).items)
  {
    var items := MergeTags(st, k, tags).items;
    forall a, b | a in items && b in items && a != b && items[a].owner.Some? && items[a].resolvedUrl.Some?
      ensures !SavedAs(items[b], items[a].owner.value, items[a].resolvedUrl.value)
    {
      assert items[a].owner == st.items[a].owner && items[a].resolvedUrl == st.items[a].resolvedUrl;
      assert items[b].owner == st.items[b].owner && items[b].resolvedUrl == st.items[b].resolvedUrl;
    }
  }

  /** `addNewItem(userId, request)`: an unknown user fails before anything
      is fetched; a retrieval failure changes nothing; otherwise the owner's
      item for the resolved URL is created, or, when it exists, only its
      tags gain the request's tags. */
  method AddNewItem(st: Store, userId: int, request: AddItemRequest, web: Web)
    returns (r: Result<ItemDto>, st': Store, requests: seq<Request>)
    requires Valid(st)
    ensures userId !in st.users ==> r == Failure(NotFound("User not found")) && st' == st && requests == []
    ensures userId in st.users ==> requests == Retrieve(request.url, web).requests
    ensures userId in st.users && Retrieve(request.url, web).result.Failure? ==>
              r == Failure(Retrieve(request.url, web).result.error) && st' == st
    ensures r.Success? <==> userId in st.users && Retrieve(request.url, web).result.Success?
    ensures Valid(st')
    ensures UniqueResolved(st.items) ==> UniqueResolved(st'.items)
    ensures r.Success? && NoneSaved(st.items, userId, Retrieve(request.url, web).result.value.resolvedUrl) ==>
              && st' == Create(st, userId, Retrieve(request.url, web).result.value, request.tags)
              && r.value == ToDto(st'.items[st.nextId])
    ensures r.Success? && UniqueResolved(st.items) ==>
              forall k :: k in st.items && SavedAs(st.items[k], userId, Retrieve(request.url, web).result.value.resolvedUrl) ==>
                && st' == MergeTags(st, k, request.tags)
                && r.value == ToDto(st'.items[k])
  {
    if userId !in st.users {
      return Failure(NotFound("User not found")), st, [];
    }
    var retrieved := Retrieve(request.url, web);
    requests := retrieved.requests;
    if retrieved.result.Failure? {
      return Failure(retrieved.result.error), st, requests;
    }
    var meta := retrieved.result.value;
    var found := FindByOwnerAndResolvedUrl(st.items, userId, meta.resolvedUrl);
    match found
    case None =>
      st' := Create(st, userId, meta, request.tags);
      r := Success(ToDto(st'.items[st.nextId]));
      if UniqueResolved(st.items) {
        CreateKeepsUnique(st, userId, meta, request.tags);
      }
    case Some(k) =>
      st' := MergeTags(st, k, request.tags);
      r := Success(ToDto(st'.items[k]));
      if UniqueResolved(st.items) {
        MergeTagsKeepsInvariants(st, k, request.tags);
      }
  }

  /** An edit request: the item id (which may be null), an optional read
      flag, the tags, and whether they replace the item's tags or are added
      to them. */
  datatype ModifyItemRequest = ModifyItemRequest(
    id: Option<int>,
    unread: Option<bool>,
    tags: Option<set<string>>,
    replaceTags: Option<bool>)

  /** The outcome of an operation that changes the store. */
  datatype Outcome<T> = Outcome(result: Result<T>, store: Store)

  /** `edit(userId, request)`: a null id is refused by the repository, a
      missing item fails not-found and another user's item fails forbidden,
      all before anything changes; otherwise only the item's read flag (when
      given) and tags change. The replace flag must be present, and so must
      the tags when they are added. */
  function Edit(st: Store, userId: int, request: ModifyItemRequest): (o: Outcome<()>)
    requires request.replaceTags.Some? && (request.replaceTags.value || request.tags.Some?)
    ensures request.id.None? ==> o == Outcome(Failure(IllegalArgument(NullIdMessage)), st)
    ensures request.id.Some? && request.id.value !in st.items ==>
              o == Outcome(Failure(NotFound("errors.404.items")), st)
    ensures request.id.Some? && request.id.value in st.items && st.items[request.id.value].owner != Some(userId) ==>
              o == Outcome(Failure(Forbidden("errors.403.items")), st)
    ensures o.result.Success? <==>
              request.id.Some? && request.id.value in st.items && st.items[request.id.value].owner == Some(userId)
    ensures o.result.Success? ==>
              var id := request.id.value;
              && request.id.Some? && id in st.items && st.items[id].owner == Some(userId)
              && o.store.users == st.users && o.store.nextId == st.nextId
              && o.store.items.Keys == st.items.Keys
              && (forall k :: k in st.items && k != id ==> o.store.items[k] == st.items[k])
    ensures o.result.Success? ==>
              var before := st.items[request.id.value];
              var after := o.store.items[request.id.value];
              && after.(unread := before.unread, tags := before.tags) == before
              && after.unread == (if request.unread.Some? then request.unread else before.unread)
              && (request.replaceTags.value ==> after.tags == request.tags)
              && (!request.replaceTags.value ==> Tags(after) == Tags(before) + request.tags.value)
  {
    match request.id
    case None => Outcome(Failure(IllegalArgument(NullIdMessage)), st)
    case Some(id) =>
      if id !in st.items then Outcome(Failure(NotFound("errors.404.items")), st)
      else
        var item := st.items[id];
        if item.owner != Some(userId) then Outcome(Failure(Forbidden("errors.403.items")), st)
        else
          var read := if request.unread.Some? then item.(unread := request.unread) else item;
          var tagged :=
            if request.replaceTags.value then read.(tags := request.tags)
            else read.(tags := Some(Tags(read) + request.tags.value));
          Outcome(Success(()), st.(items := st.items[id := tagged]))
  }

  /** Two successive tag additions equal one addition of both tag sets. */
  lemma EditAppendsCompose(st: Store, userId: int, id: int, a: set<string>, b: set<string>)
    requires Edit(st, userId, ModifyItemRequest(Some(id), None, Some(a), Some(false))).result.Success?
    ensures var once := Edit(st, userId, ModifyItemRequest(Some(id), None, Some(a), Some(false))).store;
            var twice := Edit(once, userId, ModifyItemRequest(Some(id), None, Some(b), Some(false)));
            var both := Edit(st, userId, ModifyItemRequest(Some(id), None, Some(a + b), Some(false)));
            twice == both
  {
    var once := Edit(st, userId, ModifyItemRequest(Some(id), None, Some(a), Some(false))).store;
    var item := st.items[id];
    assert Tags(once.items[id]) + b == Tags(item) + (a + b);
  }

  /** Replacing the tags forgets them: the result does not depend on the
      tags the item had before. */
  lemma EditReplaceForgetsOldTags(st: Store, userId: int, id: int, t: set<string>, prior: set<string>)
    requires id in st.items && st.items[id].owner == Some(userId)
    ensures var st2 := st.(items := st.items[id := st.items[id].(tags := Some(prior))]);
            Edit(st, userId, ModifyItemRequest(Some(id), None, Some(t), Some(true))).store
              == Edit(st2, userId, ModifyItemRequest(Some(id), None, Some(t), Some(true))).store
  {
    var st2 := st.(items := st.items[id := st.items[id].(tags := Some(prior))]);
    assert st.items[id := st.items[id].(tags := Some(t))] == st2.items[id := st2.items[id].(tags := Some(t))];
  }

  /** `deleteItem(userId, itemId)`: removes the item only when both the id
      and the owner match; otherwise nothing happens. */
  function DeleteItem(st: Store, userId: int, itemId: int): (st': Store)
    ensures st'.users == st.users && st'.nextId == st.nextId
    ensures forall k :: k in st'.items <==> k in st.items && !(k == itemId && st.items[k].owner == Some(userId))
    ensures forall k :: k in st'.items ==> st'.items[k] == st.items[k]
  {
    if itemId in st.items && st.items[itemId].owner == Some(userId) then st.(items := st.items - {itemId})
    else st
  }

  /** Deleting keeps the store valid and the resolved URLs unique. */
  lemma DeletePreservesInvariants(st: Store, userId: int, itemId: int)
    requires Valid(st) && UniqueResolved(st.items)
    ensures Valid(DeleteItem(st, userId, itemId)) && UniqueResolved(DeleteItem(st, userId, itemId).items)
  {
  }

  /** The keys of the stored items a listing wants. */
  function Matching(items: map<int, Item>, req: GetItemRequest): set<int> {
    set k | k in items && Wanted(req, items[k])
  }

  /** The keys of a user's stored items. */
  function OwnedBy(items: map<int, Item>, user: int): set<int> {
    set k | k in items && items[k].owner == Some(user)
  }

  /** The composed conditions select the wanted keys. */
  lemma CandidatesAreMatching(items: map<int, Item>, req: GetItemRequest)
    ensures Candidates(items, Conditions(req)) == Matching(items, req)
  {
    forall k | k in items {
      ConditionsMeanWanted(req, items[k]);
    }
  }

  /** `getItems(request)`: the owner's items that pass every present filter,
      in the requested order, at most `limit` of them; the DTOs are made from
      `rows`, the items the query returned. */
  method GetItems(st: Store, req: GetItemRequest) returns (r: Result<seq<ItemDto>>, rows: seq<Item>)
    ensures req.limit < 1 ==> r == Failure(IllegalArgument(PageSizeMessage)) && rows == []
    ensures forall i :: 0 <= i < |rows| ==>
              rows[i] in st.items.Values && rows[i].owner == Some(req.userId) && Wanted(req, rows[i])
    ensures req.limit >= 1 ==> r.Success? && |r.value| == |rows|
                               && forall i :: 0 <= i < |rows| ==> r.value[i] == ToDto(rows[i])
    ensures req.limit >= 1 ==>
              |rows| == if req.limit < |Matching(st.items, req)| then req.limit else |Matching(st.items, req)|
    ensures forall i, j :: 0 <= i < j < |rows| ==> InOrder(req.sort, rows[i], rows[j])
    ensures forall k, i :: k in Matching(st.items, req) && st.items[k] !in rows && 0 <= i < |rows| ==>
              InOrder(req.sort, rows[i], st.items[k])
    ensures Valid(st) ==> forall i, j :: 0 <= i < j < |rows| ==> rows[i] != rows[j]
    ensures req.state == AllStates && req.contentType == AllContent && (req.tags.None? || req.tags.value == [])
            && req.limit >= 1 ==>
              |rows| == if req.limit < |OwnedBy(st.items, req.userId)| then req.limit else |OwnedBy(st.items, req.userId)|
  {
    if req.limit < 1 {
      return Failure(IllegalArgument(PageSizeMessage)), [];
    }
    var keys := Select(st.items, Conditions(req), req.sort, req.limit);
    CandidatesAreMatching(st.items, req);
    rows := seq(|keys|, i requires 0 <= i < |keys| => st.items[keys[i]]);
    forall k | k in keys
      ensures st.items[k] in rows
    {
      var j := PositionOf(keys, k);
      assert rows[j] == st.items[k];
    }
    if req.state == AllStates && req.contentType == AllContent && (req.tags.None? || req.tags.value == []) {
      forall k | k in st.items {
        UnrestrictedWantsOwnerItems(req, st.items[k]);
      }
      assert Matching(st.items, req) == OwnedBy(st.items, req.userId);
    }
    forall i | 0 <= i < |rows|
      ensures rows[i].owner == Some(req.userId) && Wanted(req, rows[i])
    {
      assert keys[i] in Matching(st.items, req);
    }
    var dtos := ToDtos(rows);
    r := Success(dtos);
  }

  /** `getItems(userId, tags)`: every item of the user that has at least one
      of the tags, each once, unsorted and unlimited. */
  method GetItemsByTags(st: Store, userId: int, tags: set<string>) returns (r: seq<ItemDto>, rows: seq<Item>)
    ensures forall i :: 0 <= i < |rows| ==>
              rows[i] in st.items.Values && rows[i].owner == Some(userId) && Tags(rows[i]) * tags != {}
    ensures |r| == |rows| && forall i :: 0 <= i < |rows| ==> r[i] == ToDto(rows[i])
    ensures forall k :: k in st.items && st.items[k].owner == Some(userId) && Tags(st.items[k]) * tags != {} ==>
              st.items[k] in rows
    ensures Valid(st) ==> forall i, j :: 0 <= i < j < |rows| ==> rows[i] != rows[j]
  {
    var conds := [Some(OwnerIs(userId)), Some(AnyTagIn(tags))];
    var keys := SelectAll(st.items, conds);
    forall i | 0 <= i < |keys|
      ensures keys[i] in Candidates(st.items, conds)
    {
      var k := keys[i];
      assert k in keys;
      assert k in Candidates(st.items, conds);
    }
    rows := seq(|keys|, i requires 0 <= i < |keys| => st.items[keys[i]]);
    forall i | 0 <= i < |rows|
      ensures rows[i].owner == Some(userId) && Tags(rows[i]) * tags != {}
    {
      assert keys[i] in Candidates(st.items, conds);
      assert AllOf(conds, rows[i]);
      assert conds[0].Some? && conds[1].Some?;
      assert Holds(conds[1].value, rows[i]);
      var t :| t in Tags(rows[i]) && t in tags;
      assert t in Tags(rows[i]) * tags;
    }
    forall k | k in st.items && st.items[k].owner == Some(userId) && Tags(st.items[k]) * tags != {}
      ensures st.items[k] in rows
    {
      var t := PickTag(Tags(st.items[k]) * tags);
      assert Holds(conds[1].value, st.items[k]);
      assert AllOf(conds, st.items[k]);
      assert k in Candidates(st.items, conds);
      var j := PositionOf(keys, k);
      assert rows[j] == st.items[k];
    }
    r := ToDtos(rows);
  }

  /** Some tag of a non-empty tag set. */
  lemma PickTag(s: set<string>) returns (t: string)
    requires s != {}
    ensures t in s
  {
    assert (forall x :: x !in s) ==> s == {};
    t :| t in s;
  }

  /** The `IMAGE` filter compares with "img", but a retrieved image is
      stored with type "image": no item saved from a successful retrieval
      ever passes it, while the text and video filters pass exactly the
      items retrieved as `text` and `video`. */
  lemma ContentFiltersOnRetrievedItems(meta: UrlMetadata, user: int, tags: Option<set<string>>)
    requires Classify(meta.mimeType).Some?
    ensures var item := FromMetadata(meta, user, tags);
            && !Holds(MimeTypeIgnoringCase("img"), item)
            && (Holds(MimeTypeIgnoringCase("text"), item) <==> meta.mimeType == "text")
            && (Holds(MimeTypeIgnoringCase("video"), item) <==> meta.mimeType == "video")
  {
    var t := meta.mimeType;
    assert t == "*" || t == "text" || t == "image" || t == "video";
    assert IsLowercase(t);
    EqualsIgnoreCaseOfLowercase(t, "img");
    EqualsIgnoreCaseOfLowercase(t, "text");
    EqualsIgnoreCaseOfLowercase(t, "video");
  }
}
