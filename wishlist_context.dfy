/** The wishlist container: a list of saved products kept free of duplicate
    ids, hydrated from the "wishlist" storage key when it mounts, and mirrored
    back to that key only once hydration has finished, so that the empty
    initial list never overwrites what an earlier visit saved. */
module WishlistContext {
  import opened JsBuiltins
  import opened Storage

  datatype WishlistItem = WishlistItem(id: int, title: string, image: string)

  const WishlistKey: string := "wishlist"

  /** `isInWishlist(id)`, i.e. `list.some(item => item.id === id)`. */
  function InWishlist(list: seq<WishlistItem>, id: int): (b: bool)
    ensures b <==> exists x :: x in list && x.id == id
    ensures b ==> list != []
  {
    exists i :: 0 <= i < |list| && list[i].id == id
  }

  predicate UniqueIds(list: seq<WishlistItem>) {
    forall i, j :: 0 <= i < j < |list| ==> list[i].id != list[j].id
  }

  /** The update `addToWishlist(item)` applies: append unless an entry with
      the same id is already there. */
  function AddItem(list: seq<WishlistItem>, item: WishlistItem): (r: seq<WishlistItem>)
    ensures InWishlist(r, item.id)
    ensures list <= r
    ensures |r| == if InWishlist(list, item.id) then |list| else |list| + 1
    ensures !InWishlist(list, item.id) ==> r[|list|] == item
    ensures forall id :: InWishlist(r, id) <==> InWishlist(list, id) || id == item.id
    ensures UniqueIds(list) ==> UniqueIds(r)
  {
    if !InWishlist(list, item.id) then
      var r := list + [item];
      assert r[|list|] == item;
      r
    else list
  }

  function KeepOthers(id: int): WishlistItem -> bool {
    (item: WishlistItem) => item.id != id
  }

  /** The update `removeFromWishlist(id)` applies: drop every entry with
      that id and keep the others in order. */
  function RemoveItem(list: seq<WishlistItem>, id: int): (r: seq<WishlistItem>)
    ensures !InWishlist(r, id)
    ensures forall x :: x in r <==> x in list && x.id != id
    ensures forall x :: x in list ==> multiset(r)[x] == if x.id != id then multiset(list)[x] else 0
    ensures IsSubsequence(r, list)
    ensures UniqueIds(list) ==> UniqueIds(r)
  {
    var r := Filter(list, KeepOthers(id));
    FilterIsSubsequence(list, KeepOthers(id));
    FilterKeepsUnique(list, KeepOthers(id));
    assert forall i :: 0 <= i < |r| ==> r[i] in r;
    r
  }

  lemma {:induction false} FilterKeepsUnique(list: seq<WishlistItem>, keep: WishlistItem -> bool)
    ensures UniqueIds(list) ==> UniqueIds(Filter(list, keep))
  {
    if list != [] && UniqueIds(list) {
      var rest := Filter(list[1..], keep);
      FilterKeepsUnique(list[1..], keep);
      if keep(list[0]) {
        forall j | 0 <= j < |rest| ensures rest[j].id != list[0].id {
          HeadIdNotLater(list, rest, j);
        }
        ConsKeepsUnique(list[0], rest);
      }
    }
  }

  /** Putting an item with a fresh id in front keeps the ids unique. */
  lemma ConsKeepsUnique(head: WishlistItem, rest: seq<WishlistItem>)
    requires UniqueIds(rest)
    requires forall j :: 0 <= j < |rest| ==> rest[j].id != head.id
    ensures UniqueIds([head] + rest)
  {
    var r := [head] + rest;
    forall i, j | 0 <= i < j < |r| ensures r[i].id != r[j].id {
      assert r[j] == rest[j - 1];
      if i > 0 {
        assert r[i] == rest[i - 1];
      }
    }
  }

  /** With unique ids, no later element of `list` shares the id of its head. */
  lemma HeadIdNotLater(list: seq<WishlistItem>, rest: seq<WishlistItem>, j: int)
    requires UniqueIds(list) && list != []
    requires forall x :: x in rest ==> x in list[1..]
    requires 0 <= j < |rest|
    ensures rest[j].id != list[0].id
  {
    assert rest[j] in list[1..];
    var k :| 0 <= k < |list[1..]| && list[1..][k] == rest[j];
    assert list[k + 1] == rest[j];
  }

  lemma RemoveIdempotent(list: seq<WishlistItem>, id: int)
    ensures RemoveItem(RemoveItem(list, id), id) == RemoveItem(list, id)
  {
    FilterIdempotent(list, KeepOthers(id));
  }

  lemma RemoveAbsentIsNoOp(list: seq<WishlistItem>, id: int)
    requires !InWishlist(list, id)
    ensures RemoveItem(list, id) == list
  {
    forall x | x in list ensures KeepOthers(id)(x) {
      var i :| 0 <= i < |list| && list[i] == x;
    }
    FilterKeepsAll(list, KeepOthers(id));
  }

  /** Adding the same product twice grows the list by exactly one entry. */
  lemma AddTwiceAddsOnce(list: seq<WishlistItem>, item: WishlistItem)
    requires !InWishlist(list, item.id)
    ensures AddItem(AddItem(list, item), item) == list + [item]
  {
  }

  /** The list the load effect leaves: the stored array when the key holds
      one; otherwise (key missing, empty text, or JSON.parse throwing, which
      is caught) the list as it was. */
  function Hydrated(current: seq<WishlistItem>, stored: Option<StoredText<WishlistItem>>): (r: seq<WishlistItem>)
    ensures HoldsList(stored) ==> r == stored.value.items
    ensures !HoldsList(stored) ==> r == current
  {
    match stored
    case Some(Json(items)) => items
    case _ => current
  }

  class WishlistProvider {
    var wishlist: seq<WishlistItem>
    var isLoaded: bool
    const storage: LocalStorage<WishlistItem>

    /** Once loaded, the storage key holds exactly the current list. */
    ghost predicate Valid()
      reads this, storage
    {
      isLoaded ==> storage.GetItem(WishlistKey) == Some(Json(wishlist))
    }

    /** `wishlistCount`. */
    function WishlistCount(): (n: nat)
      reads this
      ensures n == |wishlist|
      ensures n == 0 <==> forall id :: !InWishlist(wishlist, id)
    {
      assert wishlist != [] ==> InWishlist(wishlist, wishlist[0].id);
      |wishlist|
    }

    /** The first render: empty list, not loaded, storage untouched. */
    constructor (storage: LocalStorage<WishlistItem>)
      ensures this.storage == storage
      ensures wishlist == [] && !isLoaded && Valid()
    {
      this.storage := storage;
      wishlist := [];
      isLoaded := false;
    }

    /** The load effect: adopt the stored list if there is one, then mark the
        container loaded whether or not reading failed. It only reads storage. */
    method LoadEffect()
      modifies this
      ensures isLoaded
      ensures wishlist == Hydrated(old(wishlist), storage.GetItem(WishlistKey))
    {
      var stored := storage.GetItem(WishlistKey);
      match stored {
        case Some(Json(items)) => wishlist := items;
        case _ =>
      }
      isLoaded := true;
    }

    /** The save effect, run after each render in which `wishlist` or
        `isLoaded` changed: it writes the list only once loaded. */
    method SaveEffect()
      modifies storage
      ensures isLoaded ==> storage.entries == old(storage.entries)[WishlistKey := Json(wishlist)]
      ensures !isLoaded ==> storage.entries == old(storage.entries)
      ensures Valid()
    {
      if isLoaded {
        storage.SetItem(WishlistKey, wishlist);
      }
    }

    /** Mounting: in the first commit the load effect runs, and the save
        effect of that same commit still sees `isLoaded == false` and writes
        nothing; the state the load set causes a second commit, whose save
        effect writes the loaded list back. A stored list therefore survives
        mounting unchanged, and a missing or unreadable one becomes `[]`. */
    method Mount()
      modifies this, storage
      ensures isLoaded && Valid()
      ensures wishlist == Hydrated(old(wishlist), old(storage.GetItem(WishlistKey)))
      ensures storage.entries == old(storage.entries)[WishlistKey := Json(wishlist)]
      ensures HoldsList(old(storage.GetItem(WishlistKey))) ==> storage.entries == old(storage.entries)
      ensures !HoldsList(old(storage.GetItem(WishlistKey))) ==> wishlist == old(wishlist)
    {
      LoadEffect();
      SaveEffect();
    }

    /** `addToWishlist(item)`. When the id is already present the updater
        returns the same array, React skips the re-render and nothing is saved. */
    method AddToWishlist(item: WishlistItem)
      requires Valid()
      modifies this, storage
      ensures wishlist == AddItem(old(wishlist), item)
      ensures isLoaded == old(isLoaded) && Valid()
      ensures isLoaded ==> storage.entries == old(storage.entries)[WishlistKey := Json(wishlist)]
      ensures !isLoaded ==> storage.entries == old(storage.entries)
    {
      var next := AddItem(wishlist, item);
      if next != wishlist {
        wishlist := next;
        SaveEffect();
      } else if isLoaded {
        assert storage.entries[WishlistKey] == Json(wishlist);
        assert storage.entries[WishlistKey := Json(wishlist)] == storage.entries;
      }
    }

    /** `removeFromWishlist(id)`; `filter` always yields a new array, so the
        save effect runs. */
    method RemoveFromWishlist(id: int)
      requires Valid()
      modifies this, storage
      ensures wishlist == RemoveItem(old(wishlist), id)
      ensures isLoaded == old(isLoaded) && Valid()
      ensures isLoaded ==> storage.entries == old(storage.entries)[WishlistKey := Json(wishlist)]
      ensures !isLoaded ==> storage.entries == old(storage.entries)
    {
      wishlist := RemoveItem(wishlist, id);
      SaveEffect();
    }
  }
}
