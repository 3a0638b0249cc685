/**
 * The saved-link entity (`Item`) with its Java identity rules: a no-argument
 * constructor, `equals` by non-null id (or by reference), and a `hashCode`
 * that is one value for every item.
 */
module Items {
  import opened Common

  /** One saved link. Every field but the tag collection is a nullable
      reference; `owner` is the owning user, referenced by the user's id. */
  datatype Item = Item(
    id: Option<int>,
    owner: Option<int>,
    url: Option<string>,
    resolvedUrl: Option<string>,
    mimeType: Option<string>,
    title: Option<string>,
    hasImage: Option<bool>,
    hasVideo: Option<bool>,
    dateResolved: Option<Instant>,
    unread: Option<bool>,
    tags: Option<set<string>>)

  /** `new Item()`: every field null except the tag collection, which starts
      as an empty set. */
  function NewItem(): (i: Item)
    ensures i.tags == Some({})
    ensures i.id.None? && i.owner.None? && i.url.None? && i.resolvedUrl.None?
    ensures i.mimeType.None? && i.title.None? && i.hasImage.None? && i.hasVideo.None?
    ensures i.dateResolved.None? && i.unread.None?
  {
    Item(None, None, None, None, None, None, None, None, None, None, Some({}))
  }

  /** The tag collection as the store hands it out: a persisted element
      collection is never null, so a null collection reads back as empty. */
  function Tags(i: Item): set<string> {
    i.tags.GetOr({})
  }

  /** A Java object seen through `Object.equals`: an `Item` or anything else,
      each with its reference (object identity). */
  datatype Obj = ItemObj(ref: nat, item: Item) | OtherObj(ref: nat)

  /** Two views of the heap agree: the same reference is the same object. */
  predicate SameHeap(a: Obj, b: Obj) {
    a.ref == b.ref ==> a == b
  }

  /** `Item.equals(obj)` with receiver `self`; `obj` is `None` for null. */
  function Equals(self: Obj, obj: Option<Obj>): (r: bool)
    requires self.ItemObj?
    ensures obj.None? ==> !r
    ensures obj.Some? && obj.value.OtherObj? && obj.value.ref != self.ref ==> !r
    ensures obj.Some? && obj.value.ref == self.ref ==> r
    ensures obj.Some? && obj.value.ItemObj? && obj.value.ref != self.ref ==>
              (r <==> self.item.id.Some? && self.item.id == obj.value.item.id)
  {
    match obj
    case None => false
    case Some(o) =>
      if o.ref == self.ref then true
      else if !o.ItemObj? then false
      else self.item.id.Some? && self.item.id == o.item.id
  }

  /** The hash shared by every instance: `getClass().hashCode()`. */
  const ItemClassHash: int := 0x4974656d

  /** `Item.hashCode()`: the class's hash, whatever the item holds. */
  function HashCode(self: Obj): int
    requires self.ItemObj?
  {
    ItemClassHash
  }

  /** Every item hashes to the same value, whatever its fields hold. */
  lemma HashCodeIgnoresContents(a: Obj, b: Obj)
    requires a.ItemObj? && b.ItemObj?
    ensures HashCode(a) == HashCode(b)
  {
  }

  /** `equals` is reflexive, even when the id is null. */
  lemma EqualsReflexive(a: Obj)
    requires a.ItemObj?
    ensures Equals(a, Some(a))
  {
  }

  /** Two distinct unsaved items (both ids null) are never equal. */
  lemma UnsavedItemsDiffer(a: Obj, b: Obj)
    requires a.ItemObj? && b.ItemObj? && a.ref != b.ref
    requires a.item.id.None?
    ensures !Equals(a, Some(b)) && !Equals(b, Some(a))
  {
  }

  /** `equals` is symmetric between items. */
  lemma EqualsSymmetric(a: Obj, b: Obj)
    requires a.ItemObj? && b.ItemObj? && SameHeap(a, b)
    ensures Equals(a, Some(b)) <==> Equals(b, Some(a))
  {
  }

  /** `equals` is transitive between items of one heap. */
  lemma EqualsTransitive(a: Obj, b: Obj, c: Obj)
    requires a.ItemObj? && b.ItemObj? && c.ItemObj?
    requires SameHeap(a, b) && SameHeap(b, c) && SameHeap(a, c)
    requires Equals(a, Some(b)) && Equals(b, Some(c))
    ensures Equals(a, Some(c))
  {
  }

  /** The `equals`/`hashCode` contract: equal items hash alike. */
  lemma EqualItemsHashAlike(a: Obj, b: Obj)
    requires a.ItemObj? && b.ItemObj?
    requires Equals(a, Some(b))
    ensures HashCode(a) == HashCode(b)
  {
  }
}
