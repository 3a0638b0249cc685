/**
 * Item listing: the request's filter axes (owner, read state, content type,
 * tags), each contributing either no condition or one condition, the
 * conjunction of those conditions, the three sort orders, and the store's
 * query executor that returns the first `limit` matching items in order.
 */
module ItemQuery {
  import opened Common
  import opened Items

  datatype State = AllStates | Unread | Read
  datatype ContentType = AllContent | Article | Image | Video
  datatype SortOrder = Newest | Oldest | ByTitle

  /** A listing request; the tag list may be null. */
  datatype GetItemRequest = GetItemRequest(
    userId: int,
    state: State,
    contentType: ContentType,
    sort: SortOrder,
    limit: int,
    tags: Option<seq<string>>)

  /** One condition on a stored item, as the query language states it. */
  datatype Condition =
    | UnreadIs(flag: bool)
    | MimeTypeIgnoringCase(name: string)
    | OwnerIs(user: int)
    | AnyTagIn(names: set<string>)

  /** Whether a stored item satisfies a condition. A null column satisfies
      no comparison. */
  predicate Holds(c: Condition, item: Item) {
    match c
    case UnreadIs(flag) => item.unread == Some(flag)
    case MimeTypeIgnoringCase(name) => item.mimeType.Some? && EqualsIgnoreCase(item.mimeType.value, name)
    case OwnerIs(user) => item.owner == Some(user)
    case AnyTagIn(names) => exists t :: t in Tags(item) && t in names
  }

  /** The condition a read-state axis contributes. */
  function StateCondition(s: State): Option<Condition> {
    match s
    case AllStates => None
    case Unread => Some(UnreadIs(true))
    case Read => Some(UnreadIs(false))
  }

  /** The condition a content-type axis contributes. */
  function ContentTypeCondition(c: ContentType): Option<Condition> {
    match c
    case AllContent => None
    case Article => Some(MimeTypeIgnoringCase("text"))
    case Image => Some(MimeTypeIgnoringCase("img"))
    case Video => Some(MimeTypeIgnoringCase("video"))
  }

  /** The owner condition: always present. */
  function OwnerCondition(req: GetItemRequest): Option<Condition> {
    Some(OwnerIs(req.userId))
  }

  /** The tag condition: none for a null or empty list, otherwise "has at
      least one of these tags". */
  function TagsCondition(req: GetItemRequest): Option<Condition> {
    if req.tags.None? || req.tags.value == [] then None
    else Some(AnyTagIn(set t | t in req.tags.value))
  }

  /** The conditions of a listing, in the order they are collected. */
  function Conditions(req: GetItemRequest): seq<Option<Condition>> {
    [StateCondition(req.state), ContentTypeCondition(req.contentType), OwnerCondition(req), TagsCondition(req)]
  }

  /** `allOf`: the conjunction of the present conditions; absent ones are
      skipped. */
  predicate AllOf(conds: seq<Option<Condition>>, item: Item) {
    forall i :: 0 <= i < |conds| && conds[i].Some? ==> Holds(conds[i].value, item)
  }

  /** What a listing request asks for, axis by axis, stated directly on the
      item's fields. */
  predicate Wanted(req: GetItemRequest, item: Item) {
    && item.owner == Some(req.userId)
    && (req.state == Unread ==> item.unread == Some(true))
    && (req.state == Read ==> item.unread == Some(false))
    && (req.contentType != AllContent ==>
          item.mimeType.Some? && Lower(item.mimeType.value) == TypeName(req.contentType))
    && (req.tags.Some? && req.tags.value != [] ==>
          exists i :: 0 <= i < |req.tags.value| && req.tags.value[i] in Tags(item))
  }

  /** The lower-case name a content-type axis compares with. */
  function TypeName(c: ContentType): string {
    match c
    case AllContent => ""
    case Article => "text"
    case Image => "img"
    case Video => "video"
  }

  /** A present condition holds; an absent one is no constraint. */
  predicate HoldsIfPresent(c: Option<Condition>, item: Item) {
    c.Some? ==> Holds(c.value, item)
  }

  /** The conjunction of four collected conditions, one by one. */
  lemma AllOfFour(a: Option<Condition>, b: Option<Condition>, c: Option<Condition>, d: Option<Condition>, item: Item)
    ensures AllOf([a, b, c, d], item) <==>
              HoldsIfPresent(a, item) && HoldsIfPresent(b, item) && HoldsIfPresent(c, item) && HoldsIfPresent(d, item)
  {
    var conds := [a, b, c, d];
    assert conds[0] == a && conds[1] == b && conds[2] == c && conds[3] == d;
  }

  /** The content-type condition, compared ignoring case, is the lower-cased
      MIME type equal to the axis's name. */
  lemma ContentConditionMeans(req: GetItemRequest, item: Item)
    ensures HoldsIfPresent(ContentTypeCondition(req.contentType), item) <==>
              (req.contentType != AllContent ==>
                 item.mimeType.Some? && Lower(item.mimeType.value) == TypeName(req.contentType))
  {
    if req.contentType != AllContent {
      assert Lower(TypeName(req.contentType)) == TypeName(req.contentType);
    }
  }

  /** The tag condition holds exactly when some listed tag is one of the
      item's tags. */
  lemma TagsConditionMeans(req: GetItemRequest, item: Item)
    ensures HoldsIfPresent(TagsCondition(req), item) <==>
              (req.tags.Some? && req.tags.value != [] ==>
                 exists i :: 0 <= i < |req.tags.value| && req.tags.value[i] in Tags(item))
  {
    if req.tags.Some? && req.tags.value != [] {
      var ts := req.tags.value;
      var names := set t | t in ts;
      assert TagsCondition(req) == Some(AnyTagIn(names));
      if exists t :: t in Tags(item) && t in names {
        var t :| t in Tags(item) && t in names;
        var i :| 0 <= i < |ts| && ts[i] == t;
        assert 0 <= i < |ts| && ts[i] in Tags(item);
      }
      if exists i :: 0 <= i < |ts| && ts[i] in Tags(item) {
        var i :| 0 <= i < |ts| && ts[i] in Tags(item);
        assert ts[i] in Tags(item) && ts[i] in names;
      }
    }
  }

  /** The composed conditions select exactly the wanted items. */
  lemma ConditionsMeanWanted(req: GetItemRequest, item: Item)
    ensures AllOf(Conditions(req), item) <==> Wanted(req, item)
  {
    AllOfFour(StateCondition(req.state), ContentTypeCondition(req.contentType), OwnerCondition(req),
              TagsCondition(req), item);
    ContentConditionMeans(req, item);
    TagsConditionMeans(req, item);
  }

  /** With no state, content or tag restriction, a listing wants exactly the
      owner's items. */
  lemma UnrestrictedWantsOwnerItems(req: GetItemRequest, item: Item)
    requires req.state == AllStates && req.contentType == AllContent
    requires req.tags.None? || req.tags.value == []
    ensures Wanted(req, item) <==> item.owner == Some(req.userId)
  {
  }

  // ------------------------------------------------------------- ordering

  /** Lexicographic order of strings by character code. */
  predicate StrLe(a: string, b: string)
    decreases |a|
  {
    a == [] || (b != [] && (a[0] < b[0] || (a[0] == b[0] && StrLe(a[1..], b[1..]))))
  }

  lemma {:induction false} StrLeTotal(a: string, b: string)
    ensures StrLe(a, b) || StrLe(b, a)
    decreases |a|
  {
    if a != [] && b != [] && a[0] == b[0] {
      StrLeTotal(a[1..], b[1..]);
    }
  }

  lemma {:induction false} StrLeTransitive(a: string, b: string, c: string)
    requires StrLe(a, b) && StrLe(b, c)
    ensures StrLe(a, c)
    decreases |a|
  {
    if a != [] && b != [] && c != [] && a[0] == b[0] && b[0] == c[0] {
      StrLeTransitive(a[1..], b[1..], c[1..]);
    }
  }

  /** Ascending order of a nullable instant; null sorts after every value. */
  predicate DateLe(a: Option<Instant>, b: Option<Instant>) {
    b.None? || (a.Some? && a.value <= b.value)
  }

  /** Ascending order of a nullable title; null sorts after every value. */
  predicate TitleLe(a: Option<string>, b: Option<string>) {
    b.None? || (a.Some? && StrLe(a.value, b.value))
  }

  /** `a` may precede `b` in the listing: newest first, oldest first, or by
      title ascending. */
  predicate InOrder(sort: SortOrder, a: Item, b: Item) {
    match sort
    case Newest => DateLe(b.dateResolved, a.dateResolved)
    case Oldest => DateLe(a.dateResolved, b.dateResolved)
    case ByTitle => TitleLe(a.title, b.title)
  }

  /** Every two items are comparable in each sort order. */
  lemma InOrderTotal(sort: SortOrder, a: Item, b: Item)
    ensures InOrder(sort, a, b) || InOrder(sort, b, a)
  {
    if sort == ByTitle && a.title.Some? && b.title.Some? {
      StrLeTotal(a.title.value, b.title.value);
    }
  }

  /** Each sort order is transitive. */
  lemma InOrderTransitive(sort: SortOrder, a: Item, b: Item, c: Item)
    requires InOrder(sort, a, b) && InOrder(sort, b, c)
    ensures InOrder(sort, a, c)
  {
    if sort == ByTitle && a.title.Some? && b.title.Some? && c.title.Some? {
      StrLeTransitive(a.title.value, b.title.value, c.title.value);
    }
  }

  /** `NEWEST` lists later resolution instants first, `OLDEST` earlier
      ones first. */
  lemma NewestIsOldestReversed(a: Item, b: Item)
    ensures InOrder(Newest, a, b) <==> InOrder(Oldest, b, a)
  {
  }

  // ------------------------------------------------------------- executor

  /** The keys of the stored items that satisfy the conditions. */
  function Candidates(items: map<int, Item>, conds: seq<Option<Condition>>): (c: set<int>)
    ensures c <= items.Keys
  {
    set k | k in items && AllOf(conds, items[k])
  }

  predicate Distinct(keys: seq<int>) {
    forall i, j :: 0 <= i < j < |keys| ==> keys[i] != keys[j]
  }

  /** The set of a sequence's elements. */
  function Elems(keys: seq<int>): set<int> {
    set k | k in keys
  }

  /** A sequence without repetition has as many elements as its set. */
  lemma {:induction false} DistinctCardinality(keys: seq<int>)
    requires Distinct(keys)
    ensures |Elems(keys)| == |keys|
  {
    if keys != [] {
      var init := keys[..|keys| - 1];
      var last := keys[|keys| - 1];
      assert Distinct(init);
      DistinctCardinality(init);
      assert Elems(keys) == Elems(init) + {last};
      assert last !in Elems(init);
    }
  }

  /** The key of an item that may precede every other item of `s`. */
  method First(items: map<int, Item>, sort: SortOrder, s: set<int>) returns (m: int)
    requires s != {} && s <= items.Keys
    ensures m in s
    ensures forall k :: k in s ==> InOrder(sort, items[m], items[k])
  {
    NonEmptyHasElement(s);
    m :| m in s;
    var rest := s - {m};
    InOrderTotal(sort, items[m], items[m]);
    while rest != {}
      invariant rest <= s && m in s
      invariant forall k :: k in s && k !in rest ==> InOrder(sort, items[m], items[k])
      decreases rest
    {
      NonEmptyHasElement(rest);
      var k :| k in rest;
      InOrderTotal(sort, items[m], items[k]);
      InOrderTotal(sort, items[k], items[k]);
      if !InOrder(sort, items[m], items[k]) {
        forall j | j in s && j !in rest
          ensures InOrder(sort, items[k], items[j])
        {
          InOrderTransitive(sort, items[k], items[m], items[j]);
        }
        m := k;
      }
      rest := rest - {k};
    }
  }

  /** `findAll(predicate, first page of size limit, sort)`: the first
      `limit` matching items in the sort order, each at most once. Items left
      out may not precede any item returned. */
  method Select(items: map<int, Item>, conds: seq<Option<Condition>>, sort: SortOrder, limit: nat)
    returns (keys: seq<int>)
    ensures Distinct(keys)
    ensures forall i :: 0 <= i < |keys| ==> keys[i] in Candidates(items, conds)
    ensures |keys| == if limit < |Candidates(items, conds)| then limit else |Candidates(items, conds)|
    ensures forall i, j :: 0 <= i < j < |keys| ==> InOrder(sort, items[keys[i]], items[keys[j]])
    ensures forall k, i :: k in Candidates(items, conds) && k !in keys && 0 <= i < |keys| ==>
              InOrder(sort, items[keys[i]], items[k])
  {
    var all := Candidates(items, conds);
    var remaining := all;
    keys := [];
    while |keys| < limit && remaining != {}
      invariant remaining <= all
      invariant |keys| <= limit
      invariant Distinct(keys)
      invariant forall i :: 0 <= i < |keys| ==> keys[i] in all && keys[i] !in remaining
      invariant forall k :: k in all ==> k in remaining || k in keys
      invariant forall i, j :: 0 <= i < j < |keys| ==> InOrder(sort, items[keys[i]], items[keys[j]])
      invariant forall k, i :: k in remaining && 0 <= i < |keys| ==> InOrder(sort, items[keys[i]], items[k])
      decreases remaining
    {
      var m := First(items, sort, remaining);
      keys := keys + [m];
      remaining := remaining - {m};
    }
    DistinctCardinality(keys);
    assert Elems(keys) <= all;
    if remaining == {} {
      forall k | k in all
        ensures k in Elems(keys)
      {
        assert k !in remaining;
      }
      assert Elems(keys) == all;
    }
    SubsetCardinality(Elems(keys), all);
  }

  /** `findAll(predicate)`: every matching item exactly once, in no
      particular order. */
  method SelectAll(items: map<int, Item>, conds: seq<Option<Condition>>) returns (keys: seq<int>)
    ensures Distinct(keys)
    ensures forall k :: k in keys <==> k in Candidates(items, conds)
  {
    var remaining := Candidates(items, conds);
    keys := [];
    while remaining != {}
      invariant Distinct(keys)
      invariant forall k :: k in keys ==> k !in remaining
      invariant forall k :: k in Candidates(items, conds) <==> k in keys || k in remaining
      decreases remaining
    {
      NonEmptyHasElement(remaining);
      var k :| k in remaining;
      keys := keys + [k];
      remaining := remaining - {k};
    }
  }
}
