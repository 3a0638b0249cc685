/**
 * Notes attached to saved items: the note entity and its DTO, the two
 * mapping functions, adding a note to an item, and the paged listing of a
 * user's notes.
 */
module Notes {
  import opened Common
  import opened Items

  /** A note: its id, its text and the item it is attached to. */
  datatype ItemNote = ItemNote(id: Option<int>, text: Option<string>, item: Option<Item>)

  /** A note as shown to clients. */
  datatype ItemNoteDto = ItemNoteDto(
    id: Option<int>,
    itemId: Option<int>,
    text: Option<string>,
    dateOfNote: Option<string>,
    itemUrl: Option<string>)

  /** `mapToDto(note)`: the note's id and text together with its item's id
      and URL; the date is never filled in. The item must be set. */
  function MapToDto(note: ItemNote): (d: ItemNoteDto)
    requires note.item.Some?
    ensures d.id == note.id && d.text == note.text
    ensures d.itemId == note.item.value.id && d.itemUrl == note.item.value.url
    ensures d.dateOfNote.None?
  {
    ItemNoteDto(note.id, note.item.value.id, note.text, None, note.item.value.url)
  }

  /** `mapToEntity(dto, item)`: a note with the DTO's text attached to
      `item`, whose own id is taken from the DTO's item id. */
  function MapToEntity(dto: ItemNoteDto, item: Item): (n: ItemNote)
    ensures n.text == dto.text && n.item == Some(item)
    ensures n.id == dto.itemId
  {
    ItemNote(dto.itemId, dto.text, Some(item))
  }

  /** Mapping a DTO to a note and back keeps the text and, when the item is
      the one the DTO names, the item id; the item's URL is filled in, the
      date is dropped, and the DTO's own note id is replaced by its item id. */
  lemma NoteRoundTrip(dto: ItemNoteDto, item: Item)
    requires dto.itemId == item.id
    ensures var d := MapToDto(MapToEntity(dto, item));
            && d.text == dto.text
            && d.itemId == dto.itemId
            && d.itemUrl == item.url
            && d.dateOfNote.None?
            && d.id == dto.itemId
  {
  }

  /** The DTO's own note id never reaches the entity: two DTOs that differ
      only there map to the same note. */
  lemma MapToEntityIgnoresNoteId(dto: ItemNoteDto, item: Item, noteId: Option<int>)
    ensures MapToEntity(dto.(id := noteId), item) == MapToEntity(dto, item)
  {
  }

  /** What adding a note produced: the answer, and the note the repository
      stored (none when it failed). */
  datatype NoteOutcome = NoteOutcome(result: Result<ItemNoteDto>, saved: Option<ItemNote>)

  /** `addNewItemNote(userId, dto)`: the item the DTO names is looked up; a
      null item id or an unknown item fails and nothing is stored; otherwise
      the mapped note, attached to that item, is stored under the id the
      repository assigns (`savedId`) and returned as a DTO. */
  function AddNewItemNote(items: map<int, Item>, userId: int, dto: ItemNoteDto, savedId: int): (o: NoteOutcome)
    ensures dto.itemId.None? ==> o == NoteOutcome(Failure(IllegalArgument(NullIdMessage)), None)
    ensures dto.itemId.Some? && dto.itemId.value !in items ==>
              o == NoteOutcome(Failure(NotFound("Item not found")), None)
    ensures o.result.Success? <==> dto.itemId.Some? && dto.itemId.value in items
    ensures o.result.Success? ==>
              && o.saved == Some(ItemNote(Some(savedId), dto.text, Some(items[dto.itemId.value])))
              && o.result.value.id == Some(savedId)
              && o.result.value.itemId == items[dto.itemId.value].id
              && o.result.value.itemUrl == items[dto.itemId.value].url
              && o.result.value.text == dto.text
  {
    match dto.itemId
    case None => NoteOutcome(Failure(IllegalArgument(NullIdMessage)), None)
    case Some(itemId) =>
      if itemId !in items then NoteOutcome(Failure(NotFound("Item not found")), None)
      else
        var stored := MapToEntity(dto, items[itemId]).(id := Some(savedId));
        NoteOutcome(Success(MapToDto(stored)), Some(stored))
  }

  /** Adding a note never looks at the caller: the item need not be the
      caller's own, and any user gets the same outcome. */
  lemma AddNewItemNoteIgnoresCaller(items: map<int, Item>, a: int, b: int, dto: ItemNoteDto, savedId: int)
    ensures AddNewItemNote(items, a, dto, savedId) == AddNewItemNote(items, b, dto, savedId)
  {
  }

  // ------------------------------------------------------------- paging

  /** Java's `a / b` on `int`: the quotient truncated toward zero. */
  function JavaDiv(a: int, b: int): (q: int)
    requires b != 0
    ensures var rem := a - q * b;
            && (a >= 0 ==> 0 <= rem)
            && (a < 0 ==> rem <= 0)
            && (if b > 0 then -b < rem < b else b < rem < -b)
  {
    var q := (if a < 0 then -a else a) / (if b < 0 then -b else b);
    if (a < 0) != (b < 0) then -q else q
  }

  /** The page index `listAllItemsWithNotes` asks for: 0 for a non-positive
      `from`, otherwise `from / size`. */
  function PageIndex(from: int, size: int): (page: int)
    requires from <= 0 || size != 0
    ensures from <= 0 ==> page == 0
    ensures from > 0 && size > 0 ==> page >= 0 && page * size <= from < page * size + size
    ensures from > 0 && size < 0 ==> page <= 0
  {
    if from > 0 then JavaDiv(from, size) else 0
  }

  /** A note is listed for `user` when its item belongs to them. */
  predicate NoteOf(note: ItemNote, user: int) {
    note.item.Some? && note.item.value.owner == Some(user)
  }

  /** `findAllByItemUserId`: the notes of the user's items, in the order of
      `notes`, which stands for the order the database returns the rows in
      (the query names none). */
  function NotesOf(notes: seq<ItemNote>, user: int): (r: seq<ItemNote>)
    ensures forall i :: 0 <= i < |r| ==> NoteOf(r[i], user)
    ensures forall n :: n in r <==> n in notes && NoteOf(n, user)
    ensures |r| <= |notes|
  {
    if notes == [] then []
    else if NoteOf(notes[0], user) then [notes[0]] + NotesOf(notes[1..], user)
    else NotesOf(notes[1..], user)
  }

  /** A single note is listed exactly when it is the user's. */
  lemma NotesOfSingle(n: ItemNote, user: int)
    ensures NotesOf([n], user) == if NoteOf(n, user) then [n] else []
  {
    assert [n][1..] == [];
  }

  /** Filtering keeps the order of `notes`: the notes of a concatenation are
      the notes of its first part followed by those of its second. */
  lemma {:induction false} NotesOfDistributes(a: seq<ItemNote>, b: seq<ItemNote>, user: int)
    ensures NotesOf(a + b, user) == NotesOf(a, user) + NotesOf(b, user)
    decreases |a|
  {
    if a == [] {
      assert a + b == b;
    } else {
      assert (a + b)[0] == a[0];
      assert (a + b)[1..] == a[1..] + b;
      NotesOfDistributes(a[1..], b, user);
    }
  }

  /** The DTOs of a sequence of notes whose items are set. */
  function NoteDtos(notes: seq<ItemNote>): (r: seq<ItemNoteDto>)
    requires forall i :: 0 <= i < |notes| ==> notes[i].item.Some?
    ensures |r| == |notes| && forall i :: 0 <= i < |notes| ==> r[i] == MapToDto(notes[i])
  {
    seq(|notes|, i requires 0 <= i < |notes| => MapToDto(notes[i]))
  }

  /** The at most `size` notes from position `start` on. */
  function PageOf(all: seq<ItemNote>, start: nat, size: nat): (r: seq<ItemNote>)
    ensures |r| <= size
    ensures forall i :: 0 <= i < |r| ==> start + i < |all| && r[i] == all[start + i]
    ensures forall j :: start <= j < start + size && j < |all| ==> j - start < |r| && r[j - start] == all[j]
  {
    if start >= |all| then []
    else if start + size <= |all| then all[start..start + size]
    else all[start..]
  }

  /** `listAllItemsWithNotes(userId, from, size)`: the page of the user's
      notes that holds position `from`, `size` notes long. A positive `from`
      with size 0 divides by zero; a negative page index or a size below one
      is refused by the page request, index first. */
  function ListAllItemsWithNotes(notes: seq<ItemNote>, user: int, from: int, size: int): (r: Result<seq<ItemNoteDto>>)
    ensures from > 0 && size == 0 ==> r == Failure(DivisionByZero)
    ensures size >= 1 ==> r.Success?
    ensures from <= 0 && size < 1 ==> r == Failure(IllegalArgument(PageSizeMessage))
    ensures from > 0 && size < 0 && from >= -size ==> r == Failure(IllegalArgument(PageIndexMessage))
    ensures from > 0 && size < 0 && from < -size ==> r == Failure(IllegalArgument(PageSizeMessage))
    ensures r.Success? ==> size >= 1 && |r.value| <= size
  {
    if from > 0 && size == 0 then Failure(DivisionByZero)
    else
      var page := PageIndex(from, size);
      if page < 0 then Failure(IllegalArgument(PageIndexMessage))
      else if size < 1 then Failure(IllegalArgument(PageSizeMessage))
      else
        var owned := NotesOf(notes, user);
        var shown := PageOf(owned, page * size, size);
        assert forall i :: 0 <= i < |shown| ==> shown[i] in owned;
        Success(NoteDtos(shown))
  }

  /** With a positive size the listing is the DTOs of the page of the
      user's notes that starts at the page index times the size. */
  lemma ListingIsPage(notes: seq<ItemNote>, user: int, from: int, size: int)
    requires size >= 1
    ensures ListAllItemsWithNotes(notes, user, from, size)
            == Success(NoteDtos(PageOf(NotesOf(notes, user), PageIndex(from, size) * size, size)))
  {
  }

  /** The listing is the page holding the user's note at position `from`
      (position 0 for a non-positive `from`). */
  lemma ListingHoldsFrom(notes: seq<ItemNote>, user: int, from: int, size: int)
    requires size >= 1
    requires (if from > 0 then from else 0) < |NotesOf(notes, user)|
    ensures MapToDto(NotesOf(notes, user)[if from > 0 then from else 0]) in ListAllItemsWithNotes(notes, user, from, size).value
  {
    var start := PageStart(from, size);
    ListingIsPage(notes, user, from, size);
    PageEntryListed(NotesOf(notes, user), start, size, if from > 0 then from else 0);
  }

  /** The first position of the page `from` falls on, which holds `from`
      (or position 0 when `from` is not positive). */
  lemma PageStart(from: int, size: int) returns (start: nat)
    requires size >= 1
    ensures start == PageIndex(from, size) * size
    ensures start <= (if from > 0 then from else 0) < start + size
  {
    start := PageIndex(from, size) * size;
  }

  /** The DTO of a note inside a page is among the page's DTOs. */
  lemma PageEntryListed(owned: seq<ItemNote>, start: nat, size: nat, at: nat)
    requires forall i :: 0 <= i < |owned| ==> owned[i].item.Some?
    requires start <= at < start + size && at < |owned|
    ensures MapToDto(owned[at]) in NoteDtos(PageOf(owned, start, size))
  {
    var shown := PageOf(owned, start, size);
    assert shown[at - start] == owned[at];
    assert NoteDtos(shown)[at - start] == MapToDto(owned[at]);
  }

  /** A non-positive `from` lists the first `size` notes of the user. */
  lemma NonPositiveFromListsFirstPage(notes: seq<ItemNote>, user: int, from: int, size: int)
    requires from <= 0 && size >= 1
    ensures var owned := NotesOf(notes, user);
            var n := if size < |owned| then size else |owned|;
            ListAllItemsWithNotes(notes, user, from, size).value == NoteDtos(owned[..n])
  {
  }
}
