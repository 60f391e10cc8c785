/** The menu service: menu items as stored, the availability filter used to
    load the menu, and the one-off bulk upload `initializeMenu`. Each Firestore
    call is an input: the documents a read returned, or the outcome of each write. */
module MenuService {
  import opened Results
  import opened Seqs

  type ItemId = string

  /** A menu item as the storefront uses it; `available` is missing (None) on most items. */
  datatype MenuItem = MenuItem(
    id: ItemId, name: string, description: string, price: int,
    category: string, available: Option<bool>)

  /** A stored menu document: its document id and its data. The data may carry
      its own `id` field (the bundled menu data does), which `{id: doc.id, ...data}`
      lets win over the document id. */
  datatype MenuDoc = MenuDoc(docId: ItemId, ownId: Option<ItemId>, data: MenuItem)

  /** `{id: doc.id, ...doc.data()}`. */
  function ToItem(d: MenuDoc): (item: MenuItem)
    ensures item.id == if d.ownId.Some? then d.ownId.value else d.docId
    ensures item.(id := d.data.id) == d.data
  {
    d.data.(id := d.ownId.GetOr(d.docId))
  }

  function ToItems(docs: seq<MenuDoc>): (items: seq<MenuItem>)
    ensures |items| == |docs|
    ensures forall i :: 0 <= i < |docs| ==> items[i] == ToItem(docs[i])
  {
    seq(|docs|, i requires 0 <= i < |docs| => ToItem(docs[i]))
  }

  /** `data.available !== false`: a missing field counts as available. */
  predicate IsAvailable(item: MenuItem) {
    item.available != Some(false)
  }

  /** `getAvailableMenuItems`: the documents not marked unavailable, in query order. */
  function AvailableMenuItems(docs: seq<MenuDoc>): (items: seq<MenuItem>)
    ensures forall x :: x in items ==> IsAvailable(x) && x in ToItems(docs)
    ensures forall i :: 0 <= i < |docs| && IsAvailable(ToItem(docs[i])) ==> ToItem(docs[i]) in items
    ensures IsSubsequence(items, ToItems(docs))
  {
    FilterIsSubsequence(ToItems(docs), IsAvailable);
    Filter(ToItems(docs), IsAvailable)
  }

  /** Documents that never mention availability are all kept. */
  lemma {:induction false} UnmarkedItemsAreAvailable(docs: seq<MenuDoc>)
    requires forall i :: 0 <= i < |docs| ==> docs[i].data.available.None?
    ensures AvailableMenuItems(docs) == ToItems(docs)
  {
    FilterKeepsAll(ToItems(docs), IsAvailable);
  }

  // ---------------------------------------------------------------------------
  // initializeMenu

  /** The argument of `initializeMenu`: a falsy value, a non-array, or an array of items. */
  datatype MenuInput = Falsy | NotArray | Items(items: seq<MenuItem>)

  /** What one `addDoc` did: stored the item under a new id, or threw. */
  datatype Upload = Stored(id: ItemId) | UploadFailed

  /** The ids of the successful uploads, in upload order. */
  function StoredIds(uploads: seq<Upload>): (ids: seq<ItemId>)
    ensures |ids| <= |uploads|
  {
    if |uploads| == 0 then []
    else (if uploads[0].Stored? then [uploads[0].id] else []) + StoredIds(uploads[1..])
  }

  lemma {:induction false} StoredIdsAppend(uploads: seq<Upload>, u: Upload)
    ensures StoredIds(uploads + [u]) == StoredIds(uploads) + (if u.Stored? then [u.id] else [])
  {
    if |uploads| > 0 {
      assert (uploads + [u])[1..] == uploads[1..] + [u];
      StoredIdsAppend(uploads[1..], u);
    } else {
      assert uploads + [u] == [u];
    }
  }

  /** `initializeMenu`: validate the argument (null or undefined first, then
      non-array, then empty), then upload every item one at a time; a failed
      upload is skipped and the loop goes on. `uploads[i]` is what the store
      did with `items[i]`. Returns the new ids and how many uploads were attempted. */
  method InitializeMenu(input: MenuInput, uploads: seq<Upload>) returns (r: Result<seq<ItemId>>, attempted: nat)
    requires input.Items? ==> |uploads| == |input.items|
    ensures input.Falsy? ==> r == Err("menuItems is undefined or null") && attempted == 0
    ensures input.NotArray? ==> r == Err("menuItems must be an array") && attempted == 0
    ensures input.Items? && |input.items| == 0 ==> r == Err("menuItems array is empty") && attempted == 0
    ensures input.Items? && |input.items| > 0 ==>
      && r.Ok?
      && attempted == |input.items|
      && r.value == StoredIds(uploads)
      && |r.value| <= |input.items|
  {
    match input {
      case Falsy =>
        return Err("menuItems is undefined or null"), 0;
      case NotArray =>
        return Err("menuItems must be an array"), 0;
      case Items(items) =>
        if |items| == 0 {
          return Err("menuItems array is empty"), 0;
        }
        var created: seq<ItemId> := [];
        var i := 0;
        while i < |items|
          invariant 0 <= i <= |items|
          invariant created == StoredIds(uploads[..i])
        {
          StoredIdsAppend(uploads[..i], uploads[i]);
          assert uploads[..i + 1] == uploads[..i] + [uploads[i]];
          match uploads[i] {
            case Stored(id) => created := created + [id];
            case UploadFailed =>
          }
          i := i + 1;
        }
        assert uploads[..i] == uploads;
        return Ok(created), i;
    }
  }

  /** A failed upload does not stop the later ones: its successors' ids are still returned. */
  lemma {:induction false} FailureDoesNotAbort(before: seq<Upload>, after: seq<Upload>)
    ensures StoredIds(before + [UploadFailed] + after) == StoredIds(before) + StoredIds(after)
  {
    if |before| == 0 {
      assert before + [UploadFailed] + after == [UploadFailed] + after;
      assert ([UploadFailed] + after)[1..] == after;
    } else {
      assert (before + [UploadFailed] + after)[1..] == before[1..] + [UploadFailed] + after;
      FailureDoesNotAbort(before[1..], after);
    }
  }
}
