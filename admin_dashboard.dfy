/** The teacher dashboard's list of items (src/pages/AdminDashboard.tsx): the
    list is held in memory and replaced after each successful store call. */
module AdminDashboard {
  import opened Types
  import opened Seqs
  import opened ItemStore
  import opened ItemLists
  import EditItemDialog

  /** The update "Mark as Collected" sends: status and collected_at, nothing else. */
  function CollectPatch(at: Time): Patch
  {
    Patch(None, None, None, Some(Collected), None, Some(at), None)
  }

  /** The local list after marking `id` collected at time `at`. */
  function MarkCollectedIn(items: seq<LostItem>, id: string, at: Time): seq<LostItem>
  {
    Map(items, (x: LostItem) => if x.id == id then x.(status := Collected, collected_at := Some(at)) else x)
  }

  /** The local list after deleting `id`. */
  function WithoutItem(items: seq<LostItem>, id: string): seq<LostItem>
  {
    Filter(items, (x: LostItem) => x.id != id)
  }

  /** The local list after the edit dialog reports `updated`. */
  function ReplaceItem(items: seq<LostItem>, updated: LostItem): seq<LostItem>
  {
    Map(items, (x: LostItem) => if x.id == updated.id then updated else x)
  }

  /** The "Mark as Collected" button is shown only on available items. */
  predicate OffersMarkCollected(item: LostItem)
  {
    item.status == Available
  }

  /** Marking changes exactly the items with that id, to collected with the given
      collected_at, and leaves every other item and the order as they were. */
  lemma MarkCollectedOnlyTarget(items: seq<LostItem>, id: string, at: Time)
    ensures var r := MarkCollectedIn(items, id, at);
      |r| == |items| &&
      forall i :: 0 <= i < |items| ==>
        r[i].id == items[i].id &&
        (items[i].id == id ==> r[i].status == Collected && r[i].collected_at == Some(at) &&
                               r[i] == items[i].(status := r[i].status, collected_at := r[i].collected_at)) &&
        (items[i].id != id ==> r[i] == items[i])
  {
  }

  /** With one reading of the clock for both, the local row equals the stored
      row after the update; note the update does not refresh updated_at. */
  lemma MarkCollectedMirrorsStore(items: seq<LostItem>, id: string, at: Time, i: nat)
    requires i < |items| && items[i].id == id
    ensures MarkCollectedIn(items, id, at)[i] == ApplyPatch(items[i], CollectPatch(at))
    ensures ApplyPatch(items[i], CollectPatch(at)).updated_at == items[i].updated_at
  {
  }

  /** Marking twice is marking once. */
  lemma MarkCollectedIdempotent(items: seq<LostItem>, id: string, at: Time)
    ensures MarkCollectedIn(MarkCollectedIn(items, id, at), id, at) == MarkCollectedIn(items, id, at)
  {
  }

  /** On an item the button is offered for, the dashboard stamps collected_at
      as the edit dialog does when its status is set to collected. */
  lemma MarkPathsAgreeWhenOffered(item: LostItem, data: EditItemDialog.FormData, updatedAt: Time, at: Time)
    requires OffersMarkCollected(item) && data.status == Collected
    ensures ApplyPatch(item, CollectPatch(at)).collected_at == Some(at)
    ensures ApplyPatch(item, EditItemDialog.UpdatePatch(item, data, updatedAt, at)).collected_at == Some(at)
  {
  }

  /** The dashboard's update has no prior-status check: on an item that is
      already collected it overwrites collected_at, where re-saving it from the
      edit dialog keeps the first timestamp. */
  lemma MarkPathsDifferWhenCollected(item: LostItem, data: EditItemDialog.FormData, updatedAt: Time, at: Time)
    requires item.status == Collected && item.collected_at.Some? && item.collected_at.value != at
    requires data.status == Collected
    ensures !OffersMarkCollected(item)
    ensures ApplyPatch(item, CollectPatch(at)).collected_at != item.collected_at
    ensures ApplyPatch(item, EditItemDialog.UpdatePatch(item, data, updatedAt, at)).collected_at == item.collected_at
  {
  }

  /** Deleting removes exactly the items with that id and keeps the others in order. */
  lemma {:induction false} WithoutItemRemovesOnlyTarget(items: seq<LostItem>, id: string)
    ensures forall x :: x in WithoutItem(items, id) <==> x in items && x.id != id
    ensures IsSubsequence(WithoutItem(items, id), items)
    ensures |WithoutItem(items, id)| == |items| - Count(items, (x: LostItem) => x.id == id)
  {
    var keep := (x: LostItem) => x.id != id;
    var hit := (x: LostItem) => x.id == id;
    FilterIsSubsequence(items, keep);
    ComplementCounts(items, hit, keep);
    forall x | x in items && x.id != id ensures x in WithoutItem(items, id) {
      var i :| 0 <= i < |items| && items[i] == x;
    }
  }

  /** Replacing keeps the length, the ids and every element whose id differs. */
  lemma ReplaceItemOnlyTarget(items: seq<LostItem>, updated: LostItem)
    ensures var r := ReplaceItem(items, updated);
      |r| == |items| &&
      forall i :: 0 <= i < |items| ==>
        r[i].id == items[i].id &&
        r[i] == (if items[i].id == updated.id then updated else items[i])
  {
  }

  class Dashboard {
    var items: seq<LostItem>
    /** Set until the first fetch settles. */
    var loading: bool

    constructor ()
      ensures items == [] && loading
    {
      items := [];
      loading := true;
    }

    /** `fetchItems`: the fetched rows replace the list; a null result reads as
        empty; on a store error the list stays as it was. */
    method FetchItems(data: Option<seq<LostItem>>, storeFails: bool)
      modifies this
      ensures items == if storeFails then old(items) else if data.Some? then data.value else []
      ensures !loading
    {
      if !storeFails {
        items := if data.Some? then data.value else [];
      }
      loading := false;
    }

    /** `markAsCollected`: the store and the local list each read the clock
        (`storeNow`, `localNow`); on a store error the list is unchanged. */
    method MarkAsCollected(itemId: string, storeNow: Time, localNow: Time, storeFails: bool)
      returns (sent: Patch)
      modifies this
      ensures sent == CollectPatch(storeNow)
      ensures items == if storeFails then old(items) else MarkCollectedIn(old(items), itemId, localNow)
      ensures loading == old(loading)
    {
      sent := CollectPatch(storeNow);
      if !storeFails {
        items := MarkCollectedIn(items, itemId, localNow);
      }
    }

    /** `deleteItem`: nothing is sent unless the user confirms, and the list
        changes only after the store deletes the row. */
    method DeleteItem(itemId: string, confirmed: bool, storeFails: bool)
      returns (deleteSent: bool)
      modifies this
      ensures deleteSent == confirmed
      ensures items == if confirmed && !storeFails then WithoutItem(old(items), itemId) else old(items)
      ensures loading == old(loading)
    {
      if !confirmed {
        return false;
      }
      deleteSent := true;
      if !storeFails {
        items := WithoutItem(items, itemId);
      }
    }

    /** `handleItemUpdated`. */
    method HandleItemUpdated(updated: LostItem)
      modifies this
      ensures items == ReplaceItem(old(items), updated)
      ensures loading == old(loading)
    {
      items := ReplaceItem(items, updated);
    }

    /** The `onItemAdded` callback's first step: the new item goes in front. */
    method OnItemAdded(newItem: LostItem)
      modifies this
      ensures items == [newItem] + old(items)
      ensures loading == old(loading)
      ensures |items| == |old(items)| + 1 && items[0] == newItem && items[1..] == old(items)
    {
      items := [newItem] + items;
    }
  }
}
